/** Whole calls of kernel/futex.c in every interleaving: from the event that enters futex_wait, futex_wake, futex_wake_op or
    futex_requeue with its arguments to the thread's return. */
module FutexCalls {

  import opened Seqs
  import opened Futex
  import opened FutexProtocol
  import opened FutexSteps
  import opened FutexSafety
  import opened FutexWake
  import opened FutexRequeue

  /** Thread t is in a call, and comes to be idle with the last event. */
  ghost predicate Returns(s: State, es: seq<Event>, t: Tid) {
    es != [] && (forall i :: 0 <= i < |es| ==> !At(Exec(s, es[..i]), t).Idle?) && At(Exec(s, es), t).Idle?
  }

  predicate Own(e: Event, t: Tid) {
    e == Continue(t) || (e.Operate? && e.t == t)
  }

  /** If event e is thread t's, it touches no chain and no other thread's entry. */
  ghost predicate Still(s: State, e: Event, t: Tid) {
    Own(e, t) ==> Step(s, e).chain == s.chain && forall x :: x != t ==> Q(Step(s, e), x) == Q(s, x)
  }

  ghost predicate Quiet(s: State, es: seq<Event>, t: Tid) {
    forall i :: 0 <= i < |es| ==> Still(Exec(s, es[..i]), es[i], t)
  }

  // ---------------------------------------------------------------------------------------------- runs in parts

  lemma {:induction false} ExecCons(s: State, e: Event, es: seq<Event>)
    ensures Exec(s, [e] + es) == Exec(Step(s, e), es)
  {
    assert ([e] + es)[1..] == es;
  }

  lemma {:induction false} OneStep(s: State, a: seq<Event>, e: Event)
    ensures Exec(s, a + [e]) == Step(Exec(s, a), e)
  {
    ExecConcat(s, a, [e]);
    ExecCons(Exec(s, a), e, []);
    assert [e] + [] == [e];
  }

  lemma {:induction false} OneFurther(s: State, es: seq<Event>, i: nat)
    requires Inv(s) && i < |es|
    ensures Inv(Exec(s, es[..i])) && Exec(s, es[..i + 1]) == Step(Exec(s, es[..i]), es[i])
  {
    ExecKeeps(s, es[..i]);
    OneStep(s, es[..i], es[i]);
    assert es[..i + 1] == es[..i] + [es[i]];
  }

  lemma {:induction false} WaitsOn(s: State, es: seq<Event>, i: nat, wait: State -> bool, stop: (State, Event) -> bool)
    requires Inv(s) && i < |es| && wait(Exec(s, es[..i])) && !stop(Exec(s, es[..i]), es[i])
    requires forall u, x {:trigger stop(u, x)} :: Inv(u) && wait(u) && !stop(u, x) ==> wait(Step(u, x))
    ensures wait(Exec(s, es[..i + 1]))
  {
    OneFurther(s, es, i);
  }

  /** The run up to the first event for which `stop` holds; until then t is where `wait` says. */
  lemma {:induction false} Until(s: State, t: Tid, es: seq<Event>, wait: State -> bool, stop: (State, Event) -> bool)
    returns (a: seq<Event>, e: Event, d: seq<Event>)
    requires Inv(s) && Returns(s, es, t) && wait(s)
    requires forall u, x {:trigger stop(u, x)} :: Inv(u) && wait(u) && !stop(u, x) ==> wait(Step(u, x))
    requires forall u :: wait(u) ==> !At(u, t).Idle?
    ensures es == a + [e] + d && wait(Exec(s, a)) && stop(Exec(s, a), e)
    ensures forall k :: 0 <= k < |a| ==> wait(Exec(s, a[..k])) && !stop(Exec(s, a[..k]), a[k])
  {
    var w, st := (k: nat) => k <= |es| && wait(Exec(s, es[..k])), (k: nat) => k < |es| && stop(Exec(s, es[..k]), es[k]);
    forall j | 0 <= j < |es| && w(j) && !st(j) ensures w(j + 1) {
      WaitsOn(s, es, j, wait, stop);
    }
    assert es[..0] == [] && es[..|es|] == es;
    var k := FirstStop(|es|, 0, w, st);
    a, e, d := es[..k], es[k], es[k + 1..];
    forall j | 0 <= j < |a| ensures wait(Exec(s, a[..j])) && !stop(Exec(s, a[..j]), a[j]) {
      assert a[..j] == es[..j] && w(j) && !st(j);
    }
  }

  /** Every state before the end of the run is as p says. */
  ghost predicate Throughout(s: State, es: seq<Event>, p: State -> bool) {
    forall i :: 0 <= i < |es| ==> p(Exec(s, es[..i]))
  }

  lemma {:induction false} OneOn(s: State, es: seq<Event>, p: State -> bool)
    requires es != [] && Throughout(s, es, p)
    ensures p(s) && Throughout(Step(s, es[0]), es[1..], p)
  {
    var s' := Step(s, es[0]);
    assert es[..0] == [];
    forall i | 0 <= i < |es[1..]| ensures p(Exec(s', es[1..][..i])) {
      assert es[..i + 1] == [es[0]] + es[1..][..i];
      ExecCons(s, es[0], es[1..][..i]);
    }
  }

  /** The run to the return of t, which until then is where `wait` says. */
  lemma {:induction false} ToTheEnd(s: State, t: Tid, es: seq<Event>, wait: State -> bool, stop: (State, Event) -> bool)
    requires Inv(s) && Returns(s, es, t) && wait(s)
    requires forall u, x :: Inv(u) && wait(u) && !stop(u, x) ==> wait(Step(u, x))
    requires forall u, x :: Inv(u) && wait(u) && stop(u, x) ==> At(Step(u, x), t).Idle?
    requires forall u :: wait(u) ==> !At(u, t).Idle?
    ensures forall k :: 0 <= k < |es| ==> wait(Exec(s, es[..k]))
  {
    var a, e, d := Until(s, t, es, wait, stop);
    ExecKeeps(s, a);
    OneStep(s, a, e);
    IdleAtEnd(s, a + [e], d, t);
    forall k | 0 <= k < |es| ensures wait(Exec(s, es[..k])) {
      assert es[..k] == if k < |a| then a[..k] else a;
    }
  }

  lemma {:induction false} IdleAtEnd(s: State, a: seq<Event>, b: seq<Event>, t: Tid)
    requires Returns(s, a + b, t) && At(Exec(s, a), t).Idle?
    ensures b == []
  {
    assert (a + b)[..|a|] == a;
  }

  lemma {:induction false} ReturnsLater(s: State, a: seq<Event>, b: seq<Event>, t: Tid)
    requires Returns(s, a + b, t) && !At(Exec(s, a), t).Idle?
    ensures Returns(Exec(s, a), b, t)
  {
    assert b == [] ==> a + b == a;
    ExecConcat(s, a, b);
    forall i | 0 <= i < |b| ensures !At(Exec(Exec(s, a), b[..i]), t).Idle? {
      ExecConcat(s, a, b[..i]);
      assert (a + b)[..|a| + i] == a + b[..i];
    }
  }

  lemma {:induction false} ClearedConcat(s: State, a: seq<Event>, b: seq<Event>, t: Tid)
    ensures ClearedBy(s, a + b, t) == ClearedBy(s, a, t) + ClearedBy(Exec(s, a), b, t)
    decreases |a|
  {
    if a == [] {
      assert a + b == b;
    } else {
      assert (a + b)[1..] == a[1..] + b;
      ClearedConcat(Step(s, a[0]), a[1..], b, t);
      Regroup(ClearedNow(s, a[0], t), ClearedBy(Step(s, a[0]), a[1..], t), ClearedBy(Exec(s, a), b, t));
    }
  }

  lemma {:induction false} HashStays(s: State, es: seq<Event>)
    ensures Exec(s, es).hash == s.hash
    decreases |es|
  {
    if es != [] {
      if es[0].Continue? {
        StepFrame(s, es[0].t);
      }
      HashStays(Step(s, es[0]), es[1..]);
    }
  }

  predicate KeepsPtr(s: State, s': State, x: Tid) {
    Q(s, x).lockPtr.Some? ==> Q(s', x).lockPtr.Some?
  }

  lemma {:induction false} PtrInWait(s: State, t: Tid, x: Tid)
    ensures KeepsPtr(s, RunWait(s, t), x) && KeepsPtr(s, RunUnqueue(s, t), x)
  {
  }

  lemma {:induction false} PtrInWake(s: State, t: Tid, x: Tid)
    requires !At(s, t).WakeClear?
    ensures KeepsPtr(s, RunWake(s, t), x) && KeepsPtr(s, RunDouble(s, t), x)
  {
  }

  lemma {:induction false} PtrInRequeue(s: State, t: Tid, x: Tid)
    ensures KeepsPtr(s, RunRequeue(s, t), x)
  {
    if At(s, t).ReqScan? {
      PtrInScan(s, t, At(s, t).r, At(s, t).count, At(s, t).done, x);
    }
  }

  lemma {:induction false} PtrInScan(s: State, t: Tid, r: Req, count: int, done: set<Tid>, x: Tid)
    ensures KeepsPtr(s, RunReqScan(s, t, r, count, done), x)
  {
  }

  lemma {:induction false} OnlyClearStores(s: State, t: Tid, x: Tid)
    requires !At(s, t).WakeClear?
    ensures KeepsPtr(s, Run(s, t), x)
  {
    PtrInWait(s, t, x);
    PtrInWake(s, t, x);
    PtrInRequeue(s, t, x);
  }

  lemma {:induction false} ClearStores(s: State, t: Tid, x: Tid)
    requires Inv(s) && At(s, t).WakeClear?
    ensures x == At(s, t).x <==> Q(s, x).lockPtr.Some? && Q(Run(s, t), x).lockPtr.None?
    ensures x == At(s, t).x ==> x != t
  {
    assert ThreadOk(s, t);
    assert ThreadOk(s, At(s, t).x);
  }

  /** A call clears a waiter exactly when a step of its thread turns that waiter's lock_ptr to NULL. */
  lemma {:induction false} ClearsStore(s: State, e: Event, t: Tid, x: Tid)
    requires Inv(s)
    ensures x in ClearedNow(s, e, t) <==> e == Continue(t) && Q(s, x).lockPtr.Some? && Q(Step(s, e), x).lockPtr.None?
    ensures x in ClearedNow(s, e, t) ==> x != t
  {
    if e == Continue(t) {
      if At(s, t).WakeClear? {
        ClearStores(s, t, x);
      } else {
        OnlyClearStores(s, t, x);
      }
    }
  }

  lemma {:induction false} ClearedLast(s: State, a: seq<Event>, e: Event, t: Tid)
    ensures ClearedBy(s, a + [e], t) == ClearedBy(s, a, t) + ClearedNow(Exec(s, a), e, t)
  {
    ClearedConcat(s, a, [e], t);
    assert ClearedBy(Exec(s, a), [e], t) == ClearedNow(Exec(s, a), e, t) + [];
  }

  lemma {:induction false} QuietLast(s: State, a: seq<Event>, e: Event, t: Tid)
    requires Quiet(s, a, t) && Still(Exec(s, a), e, t)
    ensures Quiet(s, a + [e], t)
  {
    var b := a + [e];
    forall i | 0 <= i < |b| ensures Still(Exec(s, b[..i]), b[i], t) {
      assert b[..i] == if i < |a| then a[..i] else a;
    }
  }

  lemma {:induction false} StillClears(s: State, e: Event, t: Tid)
    requires Inv(s) && Still(s, e, t)
    ensures ClearedNow(s, e, t) == []
  {
    if e == Continue(t) && At(s, t).WakeClear? {
      ClearsStore(s, e, t, At(s, t).x);
    }
  }

  lemma {:induction false} QuietClears(s: State, es: seq<Event>, t: Tid)
    requires Inv(s) && Quiet(s, es, t)
    ensures ClearedBy(s, es, t) == []
    decreases |es|
  {
    if es != [] {
      var a, e := es[..|es| - 1], es[|es| - 1];
      assert es == a + [e] && forall i :: 0 <= i < |a| ==> a[..i] == es[..i];
      QuietClears(s, a, t);
      ExecKeeps(s, a);
      assert Still(Exec(s, a), e, t);
      StillClears(Exec(s, a), e, t);
      ClearedLast(s, a, e, t);
    }
  }

  lemma {:induction false} Elsewhere(s: State, e: Event, t: Tid)
    requires Inv(s) && !At(s, t).Idle? && !Own(e, t)
    ensures At(Step(s, e), t) == At(s, t) && Still(s, e, t)
  {
    if e.Continue? {
      OtherStep(s, e.t, t);
    }
  }

  // ---------------------------------------------------------------------------------------------- futex_wake

  /** From s to s' a loop over the chain of key's bucket wakes `got`: of the waiters there for key, with a bit of theirs in
      `bits` if that is given, the first max(n, 1) in their order. The others keep their places and their lock_ptr. */
  ghost predicate WakesFirst(s: State, s': State, key: Key, bits: Option<set<nat>>, n: int, got: seq<Tid>) {
    var b := s.hash(key);
    var q, c, c' := Entries(s, b), Chain(s, b), Chain(s', b);
    var h := Hits(q, c, key, bits);
    && got == h[..Min(Max(n, 1), |h|)] && c' == Rest(q, c, key, bits, Max(n, 1))
    && (forall x :: x in h <==> x in c && Wants(s, x, key, bits))
    && (forall x :: x in c && !Wants(s, x, key, bits) ==> x in c')
    && (forall x :: x in c' ==> x in c && Q(s', x).lockPtr == Some(b) && Q(s', x).key == Q(s, x).key && Q(s', x).bits == Q(s, x).bits)
  }

  /** The waiter waits on the word, and some bit is in both bitsets. */
  predicate Wants(s: State, x: Tid, key: Key, bits: Option<set<nat>>) {
    Q(s, x).key == key && (bits.None? || exists i :: i in bits.value && i in Q(s, x).bits)
  }

  lemma {:induction false} HitWants(s: State, b: nat, x: Tid, key: Key, bits: Option<set<nat>>)
    requires x in Chain(s, b)
    ensures Hit(Entries(s, b), x, key, bits) <==> Wants(s, x, key, bits)
  {
    assert bits.Some? ==> forall i :: i in Q(s, x).bits * bits.value <==> i in Q(s, x).bits && i in bits.value;
  }

  lemma {:induction false} WhoWants(s: State, b: nat, key: Key, bits: Option<set<nat>>, n: nat)
    requires NoDup(Chain(s, b))
    ensures var q, c := Entries(s, b), Chain(s, b);
            var r := Rest(q, c, key, bits, n);
            && (forall x :: x in Hits(q, c, key, bits) <==> x in c && Wants(s, x, key, bits))
            && (forall x :: x in c && !Wants(s, x, key, bits) ==> x in r) && (forall x :: x in r ==> x in c)
  {
    var q, c := Entries(s, b), Chain(s, b);
    forall x | x in c ensures Hit(q, x, key, bits) <==> Wants(s, x, key, bits) {
      HitWants(s, b, x, key, bits);
    }
    HitsIn(q, c, key, bits);
    RestApart(q, c, key, bits, n);
    RestMisses(q, c, key, bits, n);
  }

  lemma {:induction false} LoopKept(s: State, s': State, t: Tid, l: Loop, got: seq<Tid>, x: Tid)
    requires Inv(s') && LoopAt(JobOf(s, l), s', t, got) && At(s', t) == LoopNext(l)
    requires x in Chain(s', LoopBucket(s.hash, l)) && x in Chain(s, LoopBucket(s.hash, l))
    ensures Q(s', x).lockPtr == Some(LoopBucket(s.hash, l)) && Q(s', x).key == Q(s, x).key && Q(s', x).bits == Q(s, x).bits
  {
    var j := JobOf(s, l);
    LoopHolds(j, s', t, got);
    LoopOutside(l);
    ChainUnderLock(s', t, j.b, x);
  }

  lemma {:induction false} LoopWakes(s: State, s': State, t: Tid, l: Loop, got: seq<Tid>)
    requires Inv(s) && Inv(s') && LoopAt(JobOf(s, l), s', t, got) && At(s', t) == LoopNext(l)
    ensures WakesFirst(s, s', LoopKey(l), LoopBits(l), LoopN(l), got)
  {
    var b := LoopBucket(s.hash, l);
    WhoWants(s, b, LoopKey(l), LoopBits(l), FutexWake.ToWake(l));
    forall x | x in Chain(s', b)
      ensures x in Chain(s, b) && Q(s', x).lockPtr == Some(b) && Q(s', x).key == Q(s, x).key && Q(s', x).bits == Q(s, x).bits
    {
      LoopKept(s, s', t, l, got, x);
    }
  }

  lemma {:induction false} LoopStep(s: State, e: Event, t: Tid, l: Loop)
    requires Inv(s) && InLoop(At(s, t), l)
    ensures !At(Step(s, e), t).Idle?
  {
    if e == Continue(t) {
      match At(s, t) {
        case WakeScan(_, count) => RunScan(s, t, l, count);
        case WakeClear(who, count, x) => RunClear(s, t, who, count, x);
        case WakeResp(who, count, x) => RunResp(s, t, who, count, x);
      }
    } else if !Own(e, t) {
      Elsewhere(s, e, t);
    }
  }

  lemma {:induction false} LoopStays(s: State, es: seq<Event>, t: Tid, l: Loop, p: State -> bool)
    requires Throughout(s, es, p) && forall u :: p(u) ==> InLoop(At(u, t), l)
    ensures StaysInLoop(s, es, t, l)
    decreases |es|
  {
    if es != [] {
      OneOn(s, es, p);
      LoopStays(Step(s, es[0]), es[1..], t, l, p);
    }
  }

  /** The thread leaves the loop before it returns. */
  lemma {:induction false} LoopSplit(s: State, t: Tid, l: Loop, es: seq<Event>) returns (a: seq<Event>, d: seq<Event>)
    requires Inv(s) && !At(s, t).Idle? && Returns(s, es, t)
    ensures es == a + d && StaysInLoop(s, a, t, l) && !InLoop(At(Exec(s, a), t), l) && !At(Exec(s, a), t).Idle?
  {
    var wait, stop := (u: State) => !At(u, t).Idle?, (u: State, e: Event) => !InLoop(At(u, t), l);
    forall u, x | Inv(u) && wait(u) && !stop(u, x) ensures wait(Step(u, x)) {
      LoopStep(u, x, t, l);
    }
    var e;
    a, e, d := Until(s, t, es, wait, stop);
    LoopStays(s, a, t, l, (u: State) => InLoop(At(u, t), l));
    Regroup3(a, [e], d);
    d := [e] + d;
  }

  /** A loop does its work before its thread returns. */
  lemma {:induction false} LoopPhase(s: State, t: Tid, l: Loop, key: Key, bits: Option<set<nat>>, n: int, es: seq<Event>)
    returns (a: seq<Event>, d: seq<Event>, over: State)
    requires Inv(s) && At(s, t) == WakeScan(l, 0) && Returns(s, es, t)
    requires key == LoopKey(l) && bits == LoopBits(l) && n == LoopN(l)
    ensures es == a + d && over == Exec(s, a) && Inv(over) && At(over, t) == LoopNext(l) && Returns(over, d, t) && over.hash == s.hash
    ensures WakesFirst(s, over, key, bits, n, ClearedBy(s, a, t))
  {
    a, d := LoopSplit(s, t, l, es);
    over := Exec(s, a);
    var j, got := JobOf(s, l), ClearedBy(s, a, t);
    LoopStarts(s, t, l);
    LoopThroughout(j, s, a, t, []);
    assert [] + got == got;
    ExecKeeps(s, a);
    LoopEnds(j, over, t, got);
    LoopWakes(s, over, t, l, got);
    ReturnsLater(s, a, d, t);
    HashStays(s, a);
  }

  lemma {:induction false} WakeSpins(s: State, e: Event, t: Tid, key: Key, n: int, bits: set<nat>)
    requires Inv(s) && At(s, t) == WakeLock(key, bits, n) && !(e == Continue(t) && s.hash(key) !in s.lock)
    ensures At(Step(s, e), t) == At(s, t) && Still(s, e, t)
  {
    if !Own(e, t) {
      Elsewhere(s, e, t);
    }
  }

  /** The thread spins until it finds the lock free. */
  lemma {:induction false} WakeLocks(s: State, t: Tid, key: Key, n: int, bits: set<nat>, es: seq<Event>) returns (a: seq<Event>, d: seq<Event>)
    requires Inv(s) && At(s, t) == WakeLock(key, bits, n) && Returns(s, es, t)
    ensures es == a + [Continue(t)] + d && Quiet(s, a, t)
    ensures At(Exec(s, a), t) == WakeLock(key, bits, n) && s.hash(key) !in Exec(s, a).lock
  {
    var wait := (u: State) => At(u, t) == WakeLock(key, bits, n);
    var stop := (u: State, e: Event) => e == Continue(t) && u.hash(key) !in u.lock;
    forall u, x | Inv(u) && wait(u) && !stop(u, x) ensures wait(Step(u, x)) {
      WakeSpins(u, x, t, key, n, bits);
    }
    var e;
    a, e, d := Until(s, t, es, wait, stop);
    forall i | 0 <= i < |a| ensures Still(Exec(s, a[..i]), a[i], t) {
      ExecKeeps(s, a[..i]);
      WakeSpins(Exec(s, a[..i]), a[i], t, key, n, bits);
    }
    HashStays(s, a);
  }

  lemma {:induction false} WakeFrees(s: State, e: Event, t: Tid, key: Key)
    requires Inv(s) && At(s, t) == WakeUnlock(key)
    ensures Still(s, e, t) && At(Step(s, e), t) == if e == Continue(t) then Idle else WakeUnlock(key)
  {
    if !Own(e, t) {
      Elsewhere(s, e, t);
    }
  }

  lemma {:induction false} WakeUnlocks(s: State, t: Tid, key: Key, es: seq<Event>)
    requires Inv(s) && At(s, t) == WakeUnlock(key) && Returns(s, es, t)
    ensures Quiet(s, es, t)
  {
    var wait, stop := (u: State) => At(u, t) == WakeUnlock(key), (u: State, e: Event) => e == Continue(t);
    forall u, x | Inv(u) && wait(u) ensures if stop(u, x) then At(Step(u, x), t).Idle? else wait(Step(u, x)) {
      WakeFrees(u, x, t, key);
    }
    ToTheEnd(s, t, es, wait, stop);
    forall i | 0 <= i < |es| ensures Still(Exec(s, es[..i]), es[i], t) {
      ExecKeeps(s, es[..i]);
      WakeFrees(Exec(s, es[..i]), es[i], t, key);
    }
  }

  predicate Holds(s: State, t: Tid, b: nat) {
    b in s.lock && s.lock[b] == t
  }

  lemma {:induction false} WakeGets(s: State, t: Tid, key: Key, n: int, bits: set<nat>)
    requires Inv(s) && At(s, t) == WakeLock(key, bits, n) && s.hash(key) !in s.lock
    ensures var s' := Run(s, t);
            At(s', t) == WakeScan(WakeLoop(key, bits, n), 0) && Holds(s', t, s.hash(key)) && s'.chain == s.chain && s'.hash == s.hash
  {
  }

  /** What a call of futex_wake is, from state s in which it was entered: a, waiting for the bucket's lock; b, the loop; d, giving
      the lock back. What it clears are the first max(n, 1) of the waiters that match key and bits on the chain when it
      gets the lock, and it does nothing else to the queues. */
  ghost predicate WakeDone(s: State, t: Tid, key: Key, n: int, bits: set<nat>, a: seq<Event>, b: seq<Event>, d: seq<Event>) {
    var locked := Exec(s, a + [Continue(t)]);
    var over := Exec(locked, b);
    && s.hash(key) !in Exec(s, a).lock && Holds(locked, t, s.hash(key)) && locked.chain == Exec(s, a).chain
    && At(over, t) == WakeUnlock(key) && Holds(over, t, s.hash(key)) && locked.hash == s.hash
    && Quiet(s, a, t) && Quiet(over, d, t)
    && WakesFirst(locked, over, key, Some(bits), n, ClearedBy(s, a + [Continue(t)] + b + d, t))
  }

  lemma {:induction false} NothingElse(s: State, t: Tid, a: seq<Event>, e: Event, b: seq<Event>, d: seq<Event>)
    requires Inv(s) && Quiet(s, a, t) && ClearedNow(Exec(s, a), e, t) == [] && Quiet(Exec(Exec(s, a + [e]), b), d, t)
    ensures ClearedBy(s, a + [e] + b + d, t) == ClearedBy(Exec(s, a + [e]), b, t)
  {
    QuietClears(s, a, t);
    ExecKeeps(s, a + [e]);
    ExecKeeps(Exec(s, a + [e]), b);
    QuietClears(Exec(Exec(s, a + [e]), b), d, t);
    ClearedConcat(s, a, [e], t);
    ClearedConcat(s, a + [e], b, t);
    ExecConcat(s, a + [e], b);
    ClearedConcat(s, a + [e] + b, d, t);
    assert ClearedBy(Exec(s, a), [e], t) == [];
  }

  /** In every interleaving, a call futex_wake(key, n, bits) that returns is WakeDone. */
  lemma {:induction false} WakeCall(s0: State, before: seq<Event>, t: Tid, key: Key, n: int, bits: set<nat>, es: seq<Event>)
    returns (a: seq<Event>, b: seq<Event>, d: seq<Event>)
    requires Init(s0) && At(Exec(s0, before), t).Idle? && bits != {}
    requires Returns(Step(Exec(s0, before), Wake(t, key, n, bits)), es, t)
    ensures es == a + [Continue(t)] + b + d
    ensures WakeDone(Step(Exec(s0, before), Wake(t, key, n, bits)), t, key, n, bits, a, b, d)
  {
    InitInv(s0);
    ExecKeeps(s0, before);
    StepKeeps(Exec(s0, before), Wake(t, key, n, bits));
    a, b, d := WakeRuns(Step(Exec(s0, before), Wake(t, key, n, bits)), t, key, n, bits, es);
  }

  lemma {:induction false} WakeEnters(s: State, t: Tid, key: Key, n: int, bits: set<nat>, es: seq<Event>)
    returns (a: seq<Event>, d: seq<Event>, locked: State)
    requires Inv(s) && At(s, t) == WakeLock(key, bits, n) && Returns(s, es, t)
    ensures es == a + [Continue(t)] + d && Quiet(s, a, t) && s.hash(key) !in Exec(s, a).lock && ClearedNow(Exec(s, a), Continue(t), t) == []
    ensures locked == Exec(s, a + [Continue(t)]) && At(locked, t) == WakeScan(WakeLoop(key, bits, n), 0) && Returns(locked, d, t)
    ensures Inv(locked) && Holds(locked, t, s.hash(key)) && locked.chain == Exec(s, a).chain && locked.hash == s.hash
  {
    a, d := WakeLocks(s, t, key, n, bits, es);
    locked := Exec(s, a + [Continue(t)]);
    ExecKeeps(s, a);
    ExecKeeps(s, a + [Continue(t)]);
    HashStays(s, a);
    OneStep(s, a, Continue(t));
    WakeGets(Exec(s, a), t, key, n, bits);
    ReturnsLater(s, a + [Continue(t)], d, t);
  }

  lemma {:induction false} WakeHolds(s: State, t: Tid, key: Key)
    requires Inv(s) && At(s, t) == WakeUnlock(key)
    ensures Holds(s, t, s.hash(key))
  {
    assert s.hash(key) in Locks(s.hash, At(s, t));
  }

  lemma {:induction false} WakeRuns(s: State, t: Tid, key: Key, n: int, bits: set<nat>, es: seq<Event>)
    returns (a: seq<Event>, b: seq<Event>, d: seq<Event>)
    requires Inv(s) && At(s, t) == WakeLock(key, bits, n) && Returns(s, es, t)
    ensures es == a + [Continue(t)] + b + d && WakeDone(s, t, key, n, bits, a, b, d)
  {
    var rest, locked, over;
    a, rest, locked := WakeEnters(s, t, key, n, bits, es);
    b, d, over := LoopPhase(locked, t, WakeLoop(key, bits, n), key, Some(bits), n, rest);
    WakeUnlocks(over, t, key, d);
    WakeHolds(over, t, key);
    NothingElse(s, t, a, Continue(t), b, d);
    Regroup3(a + [Continue(t)], b, d);
  }

  lemma {:induction false} Regroup3(a: seq<Event>, b: seq<Event>, c: seq<Event>)
    ensures a + b + c == a + (b + c)
  {
  }

  lemma {:induction false} MatchWants(s: State, x: Tid, key: Key, bits: Option<set<nat>>)
    ensures Match(s, x, key, bits) <==> Wants(s, x, key, bits)
  {
    assert bits.Some? ==> forall i :: i in Q(s, x).bits * bits.value <==> i in Q(s, x).bits && i in bits.value;
  }

  lemma {:induction false} NoneWanted(s: State, s': State, key: Key, bits: Option<set<nat>>, n: int, got: seq<Tid>)
    requires NoDup(Chain(s, s.hash(key))) && s'.hash == s.hash && WakesFirst(s, s', key, bits, n, got)
    requires |Hits(Entries(s, s.hash(key)), Chain(s, s.hash(key)), key, bits)| <= Max(n, 1)
    ensures NoneLeft(s', key, bits)
  {
    var b := s.hash(key);
    var q, c := Entries(s, b), Chain(s, b);
    var f := First(s', Chain(s', b), key, bits, {});
    RestApart(q, c, key, bits, Max(n, 1));
    assert got == Hits(q, c, key, bits);
    if f.Some? {
      MatchWants(s', f.value, key, bits);
    }
  }

  /** No wake-up is lost over a whole call: if no more waiters match on the chain when futex_wake(key, n, bits) gets the lock than
      it is to wake, then from the end of its loop on, while the word keeps away from v, no waiter that compared the word
      with v and matches is on any chain, unless it was requeued there. */
  lemma {:induction false} WakeCallLosesNone(s0: State, before: seq<Event>, t: Tid, key: Key, n: int, bits: set<nat>, es: seq<Event>,
                                             after: seq<Event>, v: int, u: Tid, c: nat)
    returns (a: seq<Event>, b: seq<Event>, d: seq<Event>)
    requires Init(s0) && At(Exec(s0, before), t).Idle? && bits != {}
    requires Returns(Step(Exec(s0, before), Wake(t, key, n, bits)), es, t)
    ensures es == a + [Continue(t)] + b + d
    ensures var s := Step(Exec(s0, before), Wake(t, key, n, bits));
            var locked := Exec(s, a + [Continue(t)]);
            var over, end := Exec(locked, b), Exec(s, es + after);
            && WakeDone(s, t, key, n, bits, a, b, d)
            && (|Hits(Entries(locked, s.hash(key)), Chain(locked, s.hash(key)), key, Some(bits))| <= Max(n, 1)
                && Differs(over, d + after, key, v) && u in Chain(end, c) && Wants(end, u, key, Some(bits)) && Q(end, u).val == v
                ==> Q(end, u).moved)
  {
    a, b, d := WakeCall(s0, before, t, key, n, bits, es);
    InitInv(s0);
    ExecKeeps(s0, before);
    StepKeeps(Exec(s0, before), Wake(t, key, n, bits));
    var s := Step(Exec(s0, before), Wake(t, key, n, bits));
    DoneLosesNone(s, t, key, n, bits, a, b, d, after, v, u, c);
    Regroup3(a + [Continue(t)] + b, d, after);
    ExecConcat(s, a + [Continue(t)], b);
    ExecConcat(s, a + [Continue(t)] + b, d + after);
  }

  lemma {:induction false} DoneLosesNone(s: State, t: Tid, key: Key, n: int, bits: set<nat>, a: seq<Event>, b: seq<Event>, d: seq<Event>,
                                         after: seq<Event>, v: int, u: Tid, c: nat)
    requires Inv(s) && WakeDone(s, t, key, n, bits, a, b, d)
    ensures var locked := Exec(s, a + [Continue(t)]);
            var over := Exec(locked, b);
            var end := Exec(over, d + after);
            |Hits(Entries(locked, s.hash(key)), Chain(locked, s.hash(key)), key, Some(bits))| <= Max(n, 1)
            && Differs(over, d + after, key, v) && u in Chain(end, c) && Wants(end, u, key, Some(bits)) && Q(end, u).val == v
            ==> Q(end, u).moved
  {
    var locked := Exec(s, a + [Continue(t)]);
    var over := Exec(locked, b);
    ExecKeeps(s, a + [Continue(t)]);
    ExecKeeps(locked, b);
    HashStays(locked, b);
    if |Hits(Entries(locked, s.hash(key)), Chain(locked, s.hash(key)), key, Some(bits))| <= Max(n, 1) && Differs(over, d + after, key, v) {
      NoneWanted(locked, over, key, Some(bits), n, ClearedBy(s, a + [Continue(t)] + b + d, t));
      NoneComesBack(over, t, WakeLoop(key, bits, n), d + after, v, u, c);
      MatchWants(Exec(over, d + after), u, key, Some(bits));
    }
  }

  // ---------------------------------------------------------------------------------------------- futex_wake_op

  /** Up to the operation on the second word, and back there after -EFAULT. */
  predicate OpWaiting(p: Pc, r: Req) {
    p == DoubleLock1(r, true) || p == DoubleLock2(r, true) || p == OpApply(r) || p == DoubleUnlock1(r, true) || p == DoubleUnlock2(r, true)
  }

  predicate Operates(s: State, e: Event, t: Tid) {
    e.Operate? && e.t == t && At(s, t).OpApply?
  }

  /** Every operation of t on the word in this run fails with -EFAULT. */
  ghost predicate Faults(s: State, es: seq<Event>, t: Tid) {
    forall i :: 0 <= i < |es| && Operates(Exec(s, es[..i]), es[i], t) ==> es[i].ret == -EFAULT
  }

  lemma {:induction false} DoubleStill(s: State, t: Tid)
    requires At(s, t).DoubleLock1? || At(s, t).DoubleLock2? || At(s, t).DoubleUnlock1? || At(s, t).DoubleUnlock2?
    ensures Still(s, Continue(t), t) && Run(s, t) == RunDouble(s, t)
  {
    SelfDouble(s, t);
  }

  lemma {:induction false} ApplyStill(s: State, t: Tid, v: int, ret: int)
    ensures Still(s, Operate(t, v, ret), t)
    ensures !At(s, t).OpApply? ==> Apply(s, t, v, ret) == s
  {
  }

  lemma {:induction false} OpDoubles(s: State, t: Tid, r: Req)
    requires OpWaiting(At(s, t), r) && !At(s, t).OpApply?
    ensures OpWaiting(At(RunDouble(s, t), t), r)
  {
  }

  lemma {:induction false} OpStays(s: State, e: Event, t: Tid, r: Req)
    requires Inv(s) && OpWaiting(At(s, t), r) && (Operates(s, e, t) ==> e.ret == -EFAULT)
    ensures OpWaiting(At(Step(s, e), t), r) && Still(s, e, t)
  {
    if !Own(e, t) {
      Elsewhere(s, e, t);
    } else if e.Operate? {
      ApplyStill(s, t, e.v, e.ret);
    } else if !At(s, t).OpApply? {
      DoubleStill(s, t);
      OpDoubles(s, t, r);
    }
  }

  lemma {:induction false} OpWaits(s: State, t: Tid, r: Req, es: seq<Event>) returns (a: seq<Event>, v: int, ret: int, d: seq<Event>)
    requires Inv(s) && OpWaiting(At(s, t), r) && Returns(s, es, t)
    ensures es == a + [Operate(t, v, ret)] + d && ret != -EFAULT && At(Exec(s, a), t) == OpApply(r) && Quiet(s, a, t) && Faults(s, a, t)
  {
    var wait := (u: State) => OpWaiting(At(u, t), r);
    var stop := (u: State, e: Event) => Operates(u, e, t) && e.ret != -EFAULT;
    forall u, x | Inv(u) && wait(u) && !stop(u, x) ensures wait(Step(u, x)) {
      OpStays(u, x, t, r);
    }
    var e;
    a, e, d := Until(s, t, es, wait, stop);
    v, ret := e.v, e.ret;
    forall i | 0 <= i < |a| ensures Still(Exec(s, a[..i]), a[i], t) {
      ExecKeeps(s, a[..i]);
      OpStays(Exec(s, a[..i]), a[i], t, r);
    }
  }

  /** Giving both locks back: the last step of a call. */
  predicate LastUnlock(s: State, e: Event, t: Tid) {
    e == Continue(t) && (At(s, t).DoubleUnlock2? || (At(s, t).DoubleUnlock1? && B1(s.hash, At(s, t).r) == B2(s.hash, At(s, t).r)))
  }

  predicate Unlocking(p: Pc, r: Req) {
    p == DoubleUnlock1(r, false) || p == DoubleUnlock2(r, false)
  }

  lemma {:induction false} DoubleFrees(s: State, e: Event, t: Tid, r: Req)
    requires Inv(s) && Unlocking(At(s, t), r)
    ensures Still(s, e, t) && if LastUnlock(s, e, t) then At(Step(s, e), t).Idle? else Unlocking(At(Step(s, e), t), r)
  {
    if !Own(e, t) {
      Elsewhere(s, e, t);
    } else if e.Operate? {
      ApplyStill(s, t, e.v, e.ret);
    } else {
      DoubleStill(s, t);
    }
  }

  lemma {:induction false} DoubleUnlocks(s: State, t: Tid, r: Req, es: seq<Event>)
    requires Inv(s) && At(s, t) == DoubleUnlock1(r, false) && Returns(s, es, t)
    ensures Quiet(s, es, t)
  {
    var wait, stop := (u: State) => Unlocking(At(u, t), r), (u: State, e: Event) => LastUnlock(u, e, t);
    forall u, x | Inv(u) && wait(u) ensures if stop(u, x) then At(Step(u, x), t).Idle? else wait(Step(u, x)) {
      DoubleFrees(u, x, t, r);
    }
    ToTheEnd(s, t, es, wait, stop);
    forall i | 0 <= i < |es| ensures Still(Exec(s, es[..i]), es[i], t) {
      ExecKeeps(s, es[..i]);
      DoubleFrees(Exec(s, es[..i]), es[i], t, r);
    }
  }

  predicate HoldsBoth(s: State, t: Tid, r: Req) {
    Holds(s, t, s.hash(r.key1)) && Holds(s, t, s.hash(r.key2))
  }

  lemma {:induction false} BothHeld(s: State, t: Tid, r: Req)
    requires Inv(s) && B1(s.hash, r) in Locks(s.hash, At(s, t)) && B2(s.hash, r) in Locks(s.hash, At(s, t))
    ensures HoldsBoth(s, t, r)
  {
  }

  /** The operation on the second word, with result ret, made by t under both locks. */
  ghost predicate Applied(s: State, t: Tid, r: Req, v: int, ret: int) {
    var s' := Step(s, Operate(t, v, ret));
    && HoldsBoth(s, t, r) && HoldsBoth(s', t, r) && s'.chain == s.chain && s'.q == s.q && s'.hash == s.hash
    && s'.mem == (if ret < 0 then s.mem else s.mem[r.key2 := v])
    && At(s', t) == if ret < 0 then DoubleUnlock1(r, ret == -EFAULT) else WakeScan(OpLoop(r, false, ret > 0), 0)
  }

  lemma {:induction false} OpApplies(s: State, t: Tid, r: Req, v: int, ret: int)
    requires Inv(s) && At(s, t) == OpApply(r)
    ensures Applied(s, t, r, v, ret)
  {
    BothHeld(s, t, r);
  }

  /** What a call of futex_wake_op is, from state s in which it was entered: a, waiting for both locks, again after each
      -EFAULT; the operation with its result ret; b and c, the loops; d, giving the locks back. An error wakes nobody. Otherwise
      the first max(nr_wake, 1) waiters for key1 are cleared and, if ret is positive, then the first max(nr_wake2, 1) for key2;
      and nothing else is done to the queues. */
  ghost predicate OpDone(s: State, t: Tid, r: Req, a: seq<Event>, v: int, ret: int, b: seq<Event>, c: seq<Event>, d: seq<Event>) {
    var op := Operate(t, v, ret);
    var applied := Exec(s, a + [op]);
    var first := Exec(applied, b);
    var second := Exec(first, c);
    var got1, got2 := ClearedBy(applied, b, t), ClearedBy(first, c, t);
    && Faults(s, a, t) && ret != -EFAULT && Applied(Exec(s, a), t, r, v, ret) && applied == Step(Exec(s, a), op)
    && Quiet(s, a, t) && Quiet(second, d, t) && HoldsBoth(second, t, r)
    && (ret >= 0 ==> WakesFirst(applied, first, r.key1, None, r.nrWake, got1))
    && (ret > 0 ==> WakesFirst(first, second, r.key2, None, r.nr2, got2))
    && (ret < 0 ==> b == []) && (ret <= 0 ==> c == [])
    && ClearedBy(s, a + [op] + b + c + d, t) == got1 + got2
  }

  lemma {:induction false} OpEnters(s: State, t: Tid, r: Req, es: seq<Event>)
    returns (a: seq<Event>, v: int, ret: int, d: seq<Event>, applied: State)
    requires Inv(s) && At(s, t) == DoubleLock1(r, true) && Returns(s, es, t)
    ensures es == a + [Operate(t, v, ret)] + d && ret != -EFAULT && Quiet(s, a, t) && Faults(s, a, t) && Applied(Exec(s, a), t, r, v, ret)
    ensures applied == Exec(s, a + [Operate(t, v, ret)]) && applied == Step(Exec(s, a), Operate(t, v, ret)) && Inv(applied)
    ensures Returns(applied, d, t) && At(applied, t) == if ret < 0 then DoubleUnlock1(r, false) else WakeScan(OpLoop(r, false, ret > 0), 0)
  {
    a, v, ret, d := OpWaits(s, t, r, es);
    var op := Operate(t, v, ret);
    applied := Exec(s, a + [op]);
    ExecKeeps(s, a);
    ExecKeeps(s, a + [op]);
    OneStep(s, a, op);
    OpApplies(Exec(s, a), t, r, v, ret);
    ReturnsLater(s, a + [op], d, t);
  }

  lemma {:induction false} UnlockHolds(s: State, t: Tid, r: Req)
    requires Inv(s) && At(s, t) == DoubleUnlock1(r, false)
    ensures HoldsBoth(s, t, r)
  {
    BothHeld(s, t, r);
  }

  lemma {:induction false} TwoLoops(s: State, t: Tid, a: seq<Event>, e: Event, b: seq<Event>, c: seq<Event>, d: seq<Event>)
    requires Inv(s) && Quiet(s, a, t) && ClearedNow(Exec(s, a), e, t) == [] && Quiet(Exec(Exec(Exec(s, a + [e]), b), c), d, t)
    ensures ClearedBy(s, a + [e] + b + c + d, t) == ClearedBy(Exec(s, a + [e]), b, t) + ClearedBy(Exec(Exec(s, a + [e]), b), c, t)
  {
    ExecConcat(Exec(s, a + [e]), b, c);
    NothingElse(s, t, a, e, b + c, d);
    Regroup3(a + [e], b, c);
    ClearedConcat(Exec(s, a + [e]), b, c, t);
  }

  /** In every interleaving, a call of futex_wake_op with arguments r that returns is OpDone. */
  lemma {:induction false} WakeOpCall(s0: State, before: seq<Event>, t: Tid, r: Req, es: seq<Event>)
    returns (a: seq<Event>, v: int, ret: int, b: seq<Event>, c: seq<Event>, d: seq<Event>)
    requires Init(s0) && At(Exec(s0, before), t).Idle? && Returns(Step(Exec(s0, before), WakeOp(t, r)), es, t)
    ensures es == a + [Operate(t, v, ret)] + b + c + d && OpDone(Step(Exec(s0, before), WakeOp(t, r)), t, r, a, v, ret, b, c, d)
  {
    InitInv(s0);
    ExecKeeps(s0, before);
    StepKeeps(Exec(s0, before), WakeOp(t, r));
    a, v, ret, b, c, d := OpRuns(Step(Exec(s0, before), WakeOp(t, r)), t, r, es);
  }

  lemma {:induction false} OpRuns(s: State, t: Tid, r: Req, es: seq<Event>)
    returns (a: seq<Event>, v: int, ret: int, b: seq<Event>, c: seq<Event>, d: seq<Event>)
    requires Inv(s) && At(s, t) == DoubleLock1(r, true) && Returns(s, es, t)
    ensures es == a + [Operate(t, v, ret)] + b + c + d && OpDone(s, t, r, a, v, ret, b, c, d)
  {
    var rest, applied, first, second;
    a, v, ret, rest, applied := OpEnters(s, t, r, es);
    b, c, d, first, second := OpLoops(applied, t, r, ret, rest);
    TwoLoops(s, t, a, Operate(t, v, ret), b, c, d);
    Regroup3(a + [Operate(t, v, ret)], b, c);
    Regroup3(a + [Operate(t, v, ret)], b + c, d);
  }

  lemma {:induction false} OpSecond(s: State, t: Tid, r: Req, more: bool, es: seq<Event>)
    returns (c: seq<Event>, d: seq<Event>, second: State)
    requires Inv(s) && Returns(s, es, t) && At(s, t) == if more then WakeScan(OpLoop(r, true, true), 0) else DoubleUnlock1(r, false)
    ensures es == c + d && second == Exec(s, c) && Quiet(second, d, t) && HoldsBoth(second, t, r)
    ensures if more then WakesFirst(s, second, r.key2, None, r.nr2, ClearedBy(s, c, t)) else c == []
  {
    c, d, second := [], es, s;
    if more {
      c, d, second := LoopPhase(s, t, OpLoop(r, true, true), r.key2, None, r.nr2, es);
    }
    DoubleUnlocks(second, t, r, d);
    UnlockHolds(second, t, r);
  }

  lemma {:induction false} OpLoops(s: State, t: Tid, r: Req, ret: int, es: seq<Event>)
    returns (b: seq<Event>, c: seq<Event>, d: seq<Event>, first: State, second: State)
    requires Inv(s) && Returns(s, es, t)
    requires At(s, t) == if ret < 0 then DoubleUnlock1(r, false) else WakeScan(OpLoop(r, false, ret > 0), 0)
    ensures es == b + c + d && first == Exec(s, b) && second == Exec(first, c) && Quiet(second, d, t) && HoldsBoth(second, t, r)
    ensures ret >= 0 ==> WakesFirst(s, first, r.key1, None, r.nrWake, ClearedBy(s, b, t))
    ensures ret > 0 ==> WakesFirst(first, second, r.key2, None, r.nr2, ClearedBy(first, c, t))
    ensures (ret < 0 ==> b == []) && (ret <= 0 ==> c == [])
  {
    var rest := es;
    b, first := [], s;
    if ret >= 0 {
      b, rest, first := LoopPhase(s, t, OpLoop(r, false, ret > 0), r.key1, None, r.nrWake, es);
    }
    c, d, second := OpSecond(first, t, r, ret > 0, rest);
    Regroup3(b, c, d);
  }

  // ---------------------------------------------------------------------------------------------- futex_requeue

  /** Up to the comparison of the first word, under both locks. */
  predicate RequeueWaiting(p: Pc, r: Req) {
    p == DoubleLock1(r, false) || p == DoubleLock2(r, false) || p == ReqCheck(r)
  }

  lemma {:induction false} RequeueDoubles(s: State, t: Tid, r: Req)
    requires RequeueWaiting(At(s, t), r) && !At(s, t).ReqCheck?
    ensures RequeueWaiting(At(RunDouble(s, t), t), r)
  {
  }

  lemma {:induction false} RequeueStays(s: State, e: Event, t: Tid, r: Req)
    requires Inv(s) && RequeueWaiting(At(s, t), r) && !(At(s, t).ReqCheck? && e == Continue(t))
    ensures RequeueWaiting(At(Step(s, e), t), r) && Still(s, e, t)
  {
    if !Own(e, t) {
      Elsewhere(s, e, t);
    } else if e.Operate? {
      ApplyStill(s, t, e.v, e.ret);
    } else {
      DoubleStill(s, t);
      RequeueDoubles(s, t, r);
    }
  }

  lemma {:induction false} RequeueWaits(s: State, t: Tid, r: Req, es: seq<Event>) returns (a: seq<Event>, d: seq<Event>)
    requires Inv(s) && RequeueWaiting(At(s, t), r) && Returns(s, es, t)
    ensures es == a + [Continue(t)] + d && At(Exec(s, a), t) == ReqCheck(r) && Quiet(s, a, t)
  {
    var wait := (u: State) => RequeueWaiting(At(u, t), r);
    var stop := (u: State, e: Event) => At(u, t).ReqCheck? && e == Continue(t);
    forall u, x | Inv(u) && wait(u) && !stop(u, x) ensures wait(Step(u, x)) {
      RequeueStays(u, x, t, r);
    }
    var e;
    a, e, d := Until(s, t, es, wait, stop);
    forall i | 0 <= i < |a| ensures Still(Exec(s, a[..i]), a[i], t) {
      ExecKeeps(s, a[..i]);
      RequeueStays(Exec(s, a[..i]), a[i], t, r);
    }
  }

  /** The comparison asked for fails. */
  predicate Differ(s: State, r: Req) {
    r.cmp.Some? && Mem(s, r.key1) != r.cmp.value
  }

  lemma {:induction false} RequeueChecks(s: State, t: Tid, r: Req)
    requires Inv(s) && At(s, t) == ReqCheck(r)
    ensures var s' := Run(s, t);
            && HoldsBoth(s, t, r) && s'.chain == s.chain && s'.q == s.q && s'.hash == s.hash
            && At(s', t) == if Differ(s, r) then DoubleUnlock1(r, false) else ReqScan(r, 0, {})
  {
    BothHeld(s, t, r);
  }

  lemma {:induction false} MoveGoesOn(s: State, e: Event, t: Tid, r: Req)
    requires Inv(s) && InMove(At(s, t), r)
    ensures !At(Step(s, e), t).Idle?
  {
    if e == Continue(t) {
      if At(s, t).ReqScan? {
        ScanBusy(s, t, r, At(s, t).count, At(s, t).done);
      }
    } else if !Own(e, t) {
      Elsewhere(s, e, t);
    }
  }

  lemma {:induction false} ScanBusy(s: State, t: Tid, r: Req, count: int, done: set<Tid>)
    ensures !At(RunReqScan(s, t, r, count, done), t).Idle?
  {
  }

  lemma {:induction false} MoveStays(s: State, es: seq<Event>, t: Tid, r: Req, p: State -> bool)
    requires Throughout(s, es, p) && forall u :: p(u) ==> InMove(At(u, t), r)
    ensures StaysMoving(s, es, t, r)
    decreases |es|
  {
    if es != [] {
      OneOn(s, es, p);
      MoveStays(Step(s, es[0]), es[1..], t, r, p);
    }
  }

  lemma {:induction false} MoveSplit(s: State, t: Tid, r: Req, es: seq<Event>) returns (a: seq<Event>, d: seq<Event>)
    requires Inv(s) && !At(s, t).Idle? && Returns(s, es, t)
    ensures es == a + d && StaysMoving(s, a, t, r) && !InMove(At(Exec(s, a), t), r) && !At(Exec(s, a), t).Idle?
  {
    var wait, stop := (u: State) => !At(u, t).Idle?, (u: State, e: Event) => !InMove(At(u, t), r);
    forall u, x | Inv(u) && wait(u) && !stop(u, x) ensures wait(Step(u, x)) {
      MoveGoesOn(u, x, t, r);
    }
    var e;
    a, e, d := Until(s, t, es, wait, stop);
    MoveStays(s, a, t, r, (u: State) => InMove(At(u, t), r));
    Regroup3(a, [e], d);
    d := [e] + d;
  }

  lemma {:induction false} MovePhase(s: State, t: Tid, r: Req, es: seq<Event>) returns (b: seq<Event>, d: seq<Event>, over: State)
    requires Inv(s) && At(s, t) == ReqScan(r, 0, {}) && Returns(s, es, t)
    ensures es == b + d && over == Exec(s, b) && Inv(over) && Returns(over, d, t) && Moved(MoveOf(s, r), over, t, ClearedBy(s, b, t))
  {
    b, d := MoveSplit(s, t, r, es);
    over := Exec(s, b);
    MoveStarts(s, t, r);
    MoveCovers(MoveOf(s, r), s, t, b);
    ExecKeeps(s, b);
    ReturnsLater(s, b, d, t);
  }

  /** What a call of futex_requeue is, from state s in which it was entered: a, waiting for both locks; the comparison; b, the
      loop; d, giving the locks back. If a comparison is asked for and the word differs, nobody is woken or moved. Otherwise the
      waiters for key1 that are on the chain at the comparison are handled as Moved says; and nothing else is done to the
      queues. */
  ghost predicate RequeueDone(s: State, t: Tid, r: Req, a: seq<Event>, b: seq<Event>, d: seq<Event>) {
    var checked, started := Exec(s, a), Exec(s, a + [Continue(t)]);
    var over, got := Exec(started, b), ClearedBy(s, a + [Continue(t)] + b + d, t);
    && HoldsBoth(checked, t, r) && HoldsBoth(over, t, r) && started.chain == checked.chain && started.q == checked.q
    && Quiet(s, a, t) && Quiet(over, d, t)
    && if r.cmp.Some? && Mem(checked, r.key1) != r.cmp.value then b == [] && got == []
       else
         && Moved(MoveOf(checked, r), over, t, got)
         && (forall x :: x in MoveOf(checked, r).h <==> x in Chain(checked, s.hash(r.key1)) && Q(checked, x).key == r.key1)
  }

  lemma {:induction false} RequeueStarts(s: State, t: Tid, r: Req, a: seq<Event>) returns (checked: State, started: State)
    requires Inv(s) && At(Exec(s, a), t) == ReqCheck(r)
    ensures checked == Exec(s, a) && started == Exec(s, a + [Continue(t)])
    ensures Inv(checked) && Inv(started) && HoldsBoth(checked, t, r) && started.chain == checked.chain && started.q == checked.q
    ensures started.hash == checked.hash == s.hash && ClearedNow(checked, Continue(t), t) == []
    ensures At(started, t) == if Differ(checked, r) then DoubleUnlock1(r, false) else ReqScan(r, 0, {})
  {
    checked, started := Exec(s, a), Exec(s, a + [Continue(t)]);
    ExecKeeps(s, a);
    ExecKeeps(s, a + [Continue(t)]);
    HashStays(s, a);
    OneStep(s, a, Continue(t));
    RequeueChecks(checked, t, r);
  }

  lemma {:induction false} RequeueEnters(s: State, t: Tid, r: Req, es: seq<Event>)
    returns (a: seq<Event>, d: seq<Event>, checked: State, started: State)
    requires Inv(s) && At(s, t) == DoubleLock1(r, false) && Returns(s, es, t)
    ensures es == a + [Continue(t)] + d && Quiet(s, a, t) && checked == Exec(s, a) && started == Exec(s, a + [Continue(t)])
    ensures Inv(checked) && Inv(started) && HoldsBoth(checked, t, r) && started.chain == checked.chain && started.q == checked.q
    ensures started.hash == checked.hash == s.hash && ClearedNow(checked, Continue(t), t) == []
    ensures Returns(started, d, t) && At(started, t) == if Differ(checked, r) then DoubleUnlock1(r, false) else ReqScan(r, 0, {})
  {
    a, d := RequeueWaits(s, t, r, es);
    checked, started := RequeueStarts(s, t, r, a);
    ReturnsLater(s, a + [Continue(t)], d, t);
  }

  lemma {:induction false} SameMove(s: State, s': State, r: Req)
    requires s'.chain == s.chain && s'.q == s.q && s'.hash == s.hash
    ensures MoveOf(s', r) == MoveOf(s, r)
  {
    assert Entries(s', B1(s.hash, r)) == Entries(s, B1(s.hash, r));
  }

  lemma {:induction false} WhoMoves(s: State, r: Req)
    requires Inv(s)
    ensures forall x :: x in MoveOf(s, r).h <==> x in Chain(s, s.hash(r.key1)) && Q(s, x).key == r.key1
  {
    WhoWants(s, s.hash(r.key1), r.key1, None, 0);
  }

  lemma {:induction false} RequeueWorks(s: State, t: Tid, r: Req, differ: bool, es: seq<Event>)
    returns (b: seq<Event>, d: seq<Event>, over: State)
    requires Inv(s) && Returns(s, es, t) && At(s, t) == if differ then DoubleUnlock1(r, false) else ReqScan(r, 0, {})
    ensures es == b + d && over == Exec(s, b) && Quiet(over, d, t) && HoldsBoth(over, t, r)
    ensures if differ then b == [] else Moved(MoveOf(s, r), over, t, ClearedBy(s, b, t))
  {
    b, d, over := [], es, s;
    if !differ {
      b, d, over := MovePhase(s, t, r, es);
    }
    DoubleUnlocks(over, t, r, d);
    UnlockHolds(over, t, r);
  }

  /** In every interleaving, a call of futex_requeue with arguments r that returns is RequeueDone. */
  lemma {:induction false} RequeueCall(s0: State, before: seq<Event>, t: Tid, r: Req, es: seq<Event>)
    returns (a: seq<Event>, b: seq<Event>, d: seq<Event>)
    requires Init(s0) && At(Exec(s0, before), t).Idle? && Returns(Step(Exec(s0, before), Requeue(t, r)), es, t)
    ensures es == a + [Continue(t)] + b + d && RequeueDone(Step(Exec(s0, before), Requeue(t, r)), t, r, a, b, d)
  {
    InitInv(s0);
    ExecKeeps(s0, before);
    StepKeeps(Exec(s0, before), Requeue(t, r));
    a, b, d := RequeueRuns(Step(Exec(s0, before), Requeue(t, r)), t, r, es);
  }

  lemma {:induction false} RequeueRuns(s: State, t: Tid, r: Req, es: seq<Event>) returns (a: seq<Event>, b: seq<Event>, d: seq<Event>)
    requires Inv(s) && At(s, t) == DoubleLock1(r, false) && Returns(s, es, t)
    ensures es == a + [Continue(t)] + b + d && RequeueDone(s, t, r, a, b, d)
  {
    var rest, checked, started, over;
    a, rest, checked, started := RequeueEnters(s, t, r, es);
    b, d, over := RequeueWorks(started, t, r, Differ(checked, r), rest);
    SameMove(checked, started, r);
    WhoMoves(checked, r);
    NothingElse(s, t, a, Continue(t), b, d);
    Regroup3(a + [Continue(t)], b, d);
  }

  // ---------------------------------------------------------------------------------------------- futex_wait

  lemma {:induction false} NotTaken(s: State, u: Tid, t: Tid)
    requires Inv(s) && u != t && PlaceOf(s, t) == Out
    ensures Q(Run(s, u), t) == Q(s, t)
  {
    StepFrame(s, u);
    assert ThreadOk(s, u);
    if t == Subject(s, u) && At(s, u).WakeScan? {
      FoundNotGone(s, LoopBucket(s.hash, At(s, u).l), t);
    }
    if t == Subject(s, u) && At(s, u).ReqScan? {
      FoundNotGone(s, B1(s.hash, At(s, u).r), t);
    }
  }

  lemma {:induction false} EntryStays(s: State, e: Event, t: Tid)
    requires Inv(s) && !At(s, t).Idle? && PlaceOf(s, t) == Out && !Own(e, t)
    ensures Q(Step(s, e), t) == Q(s, t)
  {
    if e.Continue? {
      NotTaken(s, e.t, t);
    }
  }

  /** The entry holds the arguments of the call. */
  predicate Asks(s: State, t: Tid, key: Key, val: int, bits: set<nat>) {
    Q(s, t).key == key && Q(s, t).val == val && Q(s, t).bits == bits && !Q(s, t).moved
  }

  /** From the entry of futex_wait to its comparison of the word, in the bucket that key hashes to. */
  predicate WaitWaiting(s: State, t: Tid, key: Key, val: int, bits: set<nat>) {
    && (At(s, t) == SetLock || At(s, t) == Lock(s.hash(key)) || At(s, t) == Check(s.hash(key)))
    && Asks(s, t, key, val, bits)
  }

  lemma {:induction false} WaitSets(s: State, t: Tid, key: Key, val: int, bits: set<nat>)
    requires Asks(s, t, key, val, bits) && At(s, t) == SetLock
    ensures At(Run(s, t), t) == Lock(s.hash(key)) && Asks(Run(s, t), t, key, val, bits) && Run(s, t).hash == s.hash
    ensures Still(s, Continue(t), t)
  {
  }

  lemma {:induction false} WaitSpins(s: State, t: Tid, b: nat)
    requires At(s, t) == Lock(b)
    ensures (At(Run(s, t), t) == Lock(b) || At(Run(s, t), t) == Check(b)) && Run(s, t).q == s.q && Run(s, t).hash == s.hash
    ensures Still(s, Continue(t), t)
  {
  }

  lemma {:induction false} WaitStays(s: State, e: Event, t: Tid, key: Key, val: int, bits: set<nat>)
    requires Inv(s) && WaitWaiting(s, t, key, val, bits) && !(At(s, t).Check? && e == Continue(t))
    ensures WaitWaiting(Step(s, e), t, key, val, bits) && Still(s, e, t)
  {
    assert ThreadOk(s, t);
    if !Own(e, t) {
      ExecCons(s, e, []);
      HashStays(s, [e] + []);
      Elsewhere(s, e, t);
      EntryStays(s, e, t);
    } else if e.Operate? {
      ApplyStill(s, t, e.v, e.ret);
    } else if At(s, t).SetLock? {
      WaitSets(s, t, key, val, bits);
    } else {
      WaitSpins(s, t, s.hash(key));
    }
  }

  lemma {:induction false} WaitLooks(s: State, t: Tid, key: Key, val: int, bits: set<nat>, es: seq<Event>) returns (a: seq<Event>, d: seq<Event>)
    requires Inv(s) && WaitWaiting(s, t, key, val, bits) && Returns(s, es, t)
    ensures es == a + [Continue(t)] + d && Quiet(s, a, t)
    ensures WaitWaiting(Exec(s, a), t, key, val, bits) && At(Exec(s, a), t) == Check(s.hash(key))
  {
    var wait := (u: State) => WaitWaiting(u, t, key, val, bits);
    var stop := (u: State, e: Event) => At(u, t).Check? && e == Continue(t);
    forall u, x | Inv(u) && wait(u) && !stop(u, x) ensures wait(Step(u, x)) {
      WaitStays(u, x, t, key, val, bits);
    }
    var e;
    a, e, d := Until(s, t, es, wait, stop);
    forall i | 0 <= i < |a| ensures Still(Exec(s, a[..i]), a[i], t) {
      ExecKeeps(s, a[..i]);
      WaitStays(Exec(s, a[..i]), a[i], t, key, val, bits);
    }
    HashStays(s, a);
  }

  /** With the result known only the thread itself moves on, and it leaves the call. */
  lemma {:induction false} ReturnStep(s: State, e: Event, t: Tid, ret: int)
    requires Inv(s) && At(s, t) == Returned(ret)
    ensures Still(s, e, t) && At(Step(s, e), t) == if e == Continue(t) then Idle else Returned(ret)
  {
    if !Own(e, t) {
      Elsewhere(s, e, t);
    }
  }

  lemma {:induction false} ReturnQuiet(s: State, t: Tid, ret: int, es: seq<Event>)
    requires Inv(s) && At(s, t) == Returned(ret) && Returns(s, es, t)
    ensures Quiet(s, es, t)
  {
    var wait, stop := (u: State) => At(u, t) == Returned(ret), (u: State, e: Event) => e == Continue(t);
    forall u, x | Inv(u) && wait(u) ensures if stop(u, x) then At(Step(u, x), t).Idle? else wait(Step(u, x)) {
      ReturnStep(u, x, t, ret);
    }
    ToTheEnd(s, t, es, wait, stop);
    forall i | 0 <= i < |es| ensures Still(Exec(s, es[..i]), es[i], t) {
      ExecKeeps(s, es[..i]);
      ReturnStep(Exec(s, es[..i]), es[i], t, ret);
    }
  }

  /** A refused waiter gives the lock back. */
  lemma {:induction false} RefusedStep(s: State, e: Event, t: Tid, b: nat)
    requires Inv(s) && At(s, t) == Refused(b)
    ensures Still(s, e, t) && At(Step(s, e), t) == if e == Continue(t) then Returned(-EAGAIN) else Refused(b)
  {
    if !Own(e, t) {
      Elsewhere(s, e, t);
    }
  }

  lemma {:induction false} RefusedReturns(s: State, t: Tid, h: nat, es: seq<Event>) returns (b: seq<Event>, d: seq<Event>)
    requires Inv(s) && At(s, t) == Refused(h) && Returns(s, es, t)
    ensures es == b + d && At(Exec(s, b), t) == Returned(-EAGAIN) && Quiet(s, b, t)
  {
    var wait := (u: State) => At(u, t) == Refused(h);
    var stop := (u: State, e: Event) => e == Continue(t);
    forall u, x | Inv(u) && wait(u) && !stop(u, x) ensures wait(Step(u, x)) {
      RefusedStep(u, x, t, h);
    }
    var a, e;
    a, e, d := Until(s, t, es, wait, stop);
    ExecKeeps(s, a);
    OneStep(s, a, e);
    RefusedStep(Exec(s, a), e, t, h);
    forall i | 0 <= i < |a| ensures Still(Exec(s, a[..i]), a[i], t) {
      ExecKeeps(s, a[..i]);
      RefusedStep(Exec(s, a[..i]), a[i], t, h);
    }
    QuietLast(s, a, e, t);
    b := a + [e];
  }

  /** Under the lock, after the comparison, up to queue_me. */
  predicate Queueing(s: State, t: Tid, key: Key, val: int, bits: set<nat>) {
    At(s, t) == Enqueue(s.hash(key)) && Asks(s, t, key, val, bits)
  }

  lemma {:induction false} QueueStays(s: State, e: Event, t: Tid, key: Key, val: int, bits: set<nat>)
    requires Inv(s) && Queueing(s, t, key, val, bits) && e != Continue(t)
    ensures Queueing(Step(s, e), t, key, val, bits) && Still(s, e, t)
  {
    assert ThreadOk(s, t);
    ExecCons(s, e, []);
    HashStays(s, [e] + []);
    if !Own(e, t) {
      Elsewhere(s, e, t);
      EntryStays(s, e, t);
    }
  }

  lemma {:induction false} QueueWaits(s: State, t: Tid, key: Key, val: int, bits: set<nat>, es: seq<Event>) returns (b: seq<Event>, d: seq<Event>)
    requires Inv(s) && Queueing(s, t, key, val, bits) && Returns(s, es, t)
    ensures es == b + [Continue(t)] + d && Quiet(s, b, t) && Queueing(Exec(s, b), t, key, val, bits)
  {
    var wait := (u: State) => Queueing(u, t, key, val, bits);
    var stop := (u: State, e: Event) => e == Continue(t);
    forall u, x | Inv(u) && wait(u) && !stop(u, x) ensures wait(Step(u, x)) {
      QueueStays(u, x, t, key, val, bits);
    }
    var e;
    b, e, d := Until(s, t, es, wait, stop);
    forall i | 0 <= i < |b| ensures Still(Exec(s, b[..i]), b[i], t) {
      ExecKeeps(s, b[..i]);
      QueueStays(Exec(s, b[..i]), b[i], t, key, val, bits);
    }
  }

  lemma {:induction false} Queues(s: State, t: Tid, key: Key, val: int, bits: set<nat>)
    requires Inv(s) && Queueing(s, t, key, val, bits)
    ensures var s', b := Run(s, t), s.hash(key);
            && Holds(s, t, b) && Holds(s', t, b) && Chain(s', b) == Chain(s, b) + [t] && (forall c: nat :: c != b ==> Chain(s', c) == Chain(s, c))
            && Asks(s', t, key, val, bits) && Q(s', t).lockPtr == Some(b) && At(s', t) == Queued(b) && PlaceOf(s', t) == On(b)
  {
    assert ThreadOk(s, t);
    assert s.hash(key) in Locks(s.hash, At(s, t));
  }

  lemma {:induction false} StaysOn(s: State, es: seq<Event>, t: Tid, p: State -> bool)
    requires Throughout(s, es, p) && forall u :: p(u) ==> !At(u, t).Returned?
    ensures StaysIn(s, es, t)
    decreases |es|
  {
    if es != [] {
      OneOn(s, es, p);
      StaysOn(Step(s, es[0]), es[1..], t, p);
    }
  }

  lemma {:induction false} WaitReturns(s: State, t: Tid, es: seq<Event>) returns (c: seq<Event>, ret: int, d: seq<Event>)
    requires Inv(s) && At(s, t).Queued? && PlaceOf(s, t).On? && Returns(s, es, t)
    ensures es == c + d && At(Exec(s, c), t) == Returned(ret) && ret == if Cleared(s, c, t) then 0 else 1
  {
    var wait := (u: State) => Waiting(At(u, t)) || At(u, t).Deleted? || At(u, t).Returned?;
    var stop := (u: State, e: Event) => At(u, t).Returned?;
    forall u, x | Inv(u) && wait(u) && !stop(u, x) ensures wait(Step(u, x)) {
      if Waiting(At(u, t)) {
        WaiterStep(u, x, t);
      } else {
        DeletedStep(u, x, t);
      }
    }
    var e;
    c, e, d := Until(s, t, es, wait, stop);
    ret := At(Exec(s, c), t).ret;
    StaysOn(s, c, t, (u: State) => !At(u, t).Returned?);
    UnqueueResult(s, c, t);
    Regroup3(c, [e], d);
    d := [e] + d;
  }

  /** The waiter joins the chain of its word's bucket at the end, with its arguments in its entry, under the lock. Its result is 0
      if a waker stores NULL into its lock_ptr before the result is known, and 1 otherwise. */
  ghost predicate WaitQueued(s: State, t: Tid, key: Key, val: int, bits: set<nat>, b: seq<Event>, c: seq<Event>, ret: int) {
    var ready, queued, h := Exec(s, b), Exec(s, b + [Continue(t)]), s.hash(key);
    && Quiet(s, b, t) && Holds(ready, t, h) && Holds(queued, t, h)
    && Chain(queued, h) == Chain(ready, h) + [t] && (forall g: nat :: g != h ==> Chain(queued, g) == Chain(ready, g))
    && Asks(queued, t, key, val, bits) && Q(queued, t).lockPtr == Some(h)
    && ret == if Cleared(queued, c, t) then 0 else 1
  }

  /** What a call of futex_wait is, from state s in which it was entered: a, up to the comparison under the bucket's lock; b, up to
      the result; d, leaving. If the word differs from val the result is -EAGAIN and the thread is never queued; otherwise
      it is WaitQueued. */
  ghost predicate WaitDone(s: State, t: Tid, key: Key, val: int, bits: set<nat>, a: seq<Event>, b: seq<Event>, d: seq<Event>, ret: int) {
    var looked, told := Exec(s, a), Exec(s, a + [Continue(t)]);
    var back := Exec(told, b);
    && Quiet(s, a, t) && Holds(looked, t, s.hash(key)) && told.chain == looked.chain && told.hash == s.hash
    && At(back, t) == Returned(ret) && Quiet(back, d, t)
    && if Mem(looked, key) != val then ret == -EAGAIN && Quiet(told, b, t)
       else exists b1, c :: b == b1 + [Continue(t)] + c && WaitQueued(told, t, key, val, bits, b1, c, ret)
  }

  lemma {:induction false} WaitCompares(s: State, t: Tid, key: Key, val: int, bits: set<nat>)
    requires Inv(s) && Asks(s, t, key, val, bits) && At(s, t) == Check(s.hash(key))
    ensures var s' := Run(s, t);
            && Holds(s, t, s.hash(key)) && s'.chain == s.chain && s'.hash == s.hash
            && if Mem(s, key) != val then At(s', t) == Refused(s.hash(key)) else Queueing(s', t, key, val, bits)
  {
    assert s.hash(key) in Locks(s.hash, At(s, t));
  }

  lemma {:induction false} WaitTold(s: State, t: Tid, key: Key, val: int, bits: set<nat>, a: seq<Event>) returns (looked: State, told: State)
    requires Inv(s) && Asks(Exec(s, a), t, key, val, bits) && At(Exec(s, a), t) == Check(s.hash(key))
    ensures looked == Exec(s, a) && told == Exec(s, a + [Continue(t)])
    ensures Inv(told) && Holds(looked, t, s.hash(key)) && told.chain == looked.chain && told.hash == s.hash
    ensures if Mem(looked, key) != val then At(told, t) == Refused(s.hash(key)) else Queueing(told, t, key, val, bits)
  {
    looked, told := Exec(s, a), Exec(s, a + [Continue(t)]);
    ExecKeeps(s, a);
    ExecKeeps(s, a + [Continue(t)]);
    HashStays(s, a);
    OneStep(s, a, Continue(t));
    WaitCompares(looked, t, key, val, bits);
  }

  lemma {:induction false} WaitEnters(s: State, t: Tid, key: Key, val: int, bits: set<nat>, es: seq<Event>)
    returns (a: seq<Event>, d: seq<Event>, looked: State, told: State)
    requires Inv(s) && WaitWaiting(s, t, key, val, bits) && Returns(s, es, t)
    ensures es == a + [Continue(t)] + d && Quiet(s, a, t) && looked == Exec(s, a) && told == Exec(s, a + [Continue(t)])
    ensures Inv(told) && Returns(told, d, t) && Holds(looked, t, s.hash(key)) && told.chain == looked.chain && told.hash == s.hash
    ensures if Mem(looked, key) != val then At(told, t) == Refused(s.hash(key)) else Queueing(told, t, key, val, bits)
  {
    a, d := WaitLooks(s, t, key, val, bits, es);
    looked, told := WaitTold(s, t, key, val, bits, a);
    ReturnsLater(s, a + [Continue(t)], d, t);
  }

  lemma {:induction false} QueueEnters(s: State, t: Tid, key: Key, val: int, bits: set<nat>, es: seq<Event>)
    returns (b: seq<Event>, d: seq<Event>, ready: State, queued: State)
    requires Inv(s) && Queueing(s, t, key, val, bits) && Returns(s, es, t)
    ensures es == b + [Continue(t)] + d && Quiet(s, b, t) && ready == Exec(s, b) && queued == Exec(s, b + [Continue(t)])
    ensures Holds(ready, t, s.hash(key)) && Holds(queued, t, s.hash(key)) && Chain(queued, s.hash(key)) == Chain(ready, s.hash(key)) + [t]
    ensures forall g: nat :: g != s.hash(key) ==> Chain(queued, g) == Chain(ready, g)
    ensures Asks(queued, t, key, val, bits) && Q(queued, t).lockPtr == Some(s.hash(key))
    ensures Inv(queued) && At(queued, t).Queued? && PlaceOf(queued, t).On? && Returns(queued, d, t)
  {
    b, d := QueueWaits(s, t, key, val, bits, es);
    ready, queued := Exec(s, b), Exec(s, b + [Continue(t)]);
    ExecKeeps(s, b);
    ExecKeeps(s, b + [Continue(t)]);
    HashStays(s, b);
    OneStep(s, b, Continue(t));
    Queues(ready, t, key, val, bits);
    ReturnsLater(s, b + [Continue(t)], d, t);
  }

  lemma {:induction false} QueueReturns(s: State, t: Tid, key: Key, val: int, bits: set<nat>, es: seq<Event>)
    returns (b: seq<Event>, c: seq<Event>, d: seq<Event>, ret: int)
    requires Inv(s) && Queueing(s, t, key, val, bits) && Returns(s, es, t)
    ensures es == b + [Continue(t)] + c + d && WaitQueued(s, t, key, val, bits, b, c, ret)
    ensures At(Exec(s, b + [Continue(t)] + c), t) == Returned(ret)
  {
    var rest, ready, queued;
    b, rest, ready, queued := QueueEnters(s, t, key, val, bits, es);
    c, ret, d := WaitReturns(queued, t, rest);
    ExecConcat(s, b + [Continue(t)], c);
    Regroup3(b + [Continue(t)], c, d);
  }

  /** In every interleaving, a call futex_wait(key, val, bits) that returns is WaitDone. */
  lemma {:induction false} WaitCall(s0: State, before: seq<Event>, t: Tid, key: Key, val: int, bits: set<nat>, es: seq<Event>)
    returns (a: seq<Event>, b: seq<Event>, d: seq<Event>, ret: int)
    requires Init(s0) && At(Exec(s0, before), t).Idle? && bits != {}
    requires Returns(Step(Exec(s0, before), Wait(t, key, val, bits)), es, t)
    ensures es == a + [Continue(t)] + b + d
    ensures WaitDone(Step(Exec(s0, before), Wait(t, key, val, bits)), t, key, val, bits, a, b, d, ret)
  {
    InitInv(s0);
    ExecKeeps(s0, before);
    StepKeeps(Exec(s0, before), Wait(t, key, val, bits));
    a, b, d, ret := WaitRuns(Step(Exec(s0, before), Wait(t, key, val, bits)), t, key, val, bits, es);
  }

  lemma {:induction false} WaitRuns(s: State, t: Tid, key: Key, val: int, bits: set<nat>, es: seq<Event>)
    returns (a: seq<Event>, b: seq<Event>, d: seq<Event>, ret: int)
    requires Inv(s) && WaitWaiting(s, t, key, val, bits) && Returns(s, es, t)
    ensures es == a + [Continue(t)] + b + d && WaitDone(s, t, key, val, bits, a, b, d, ret)
  {
    var rest, looked, told;
    a, rest, looked, told := WaitEnters(s, t, key, val, bits, es);
    if Mem(looked, key) != val {
      b, d := RefusedReturns(told, t, s.hash(key), rest);
      ret := -EAGAIN;
    } else {
      var b1, c;
      b1, c, d, ret := QueueReturns(told, t, key, val, bits, rest);
      b := b1 + [Continue(t)] + c;
    }
    ExecKeeps(told, b);
    ReturnsLater(told, b, d, t);
    ReturnQuiet(Exec(told, b), t, ret, d);
    Regroup3(a + [Continue(t)], b, d);
  }
}
