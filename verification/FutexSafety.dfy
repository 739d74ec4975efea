/** What the futex protocol guarantees in every run. */
module FutexSafety {

  import opened Seqs
  import opened Futex
  import opened FutexProtocol
  import opened FutexSteps

  /** In every run a queued futex_q is on one chain, once; while that bucket's lock is free, the bucket is the one its
      key hashes to and the one lock_ptr names; and a waiter whose lock_ptr names a bucket with a free lock is on it. */
  lemma {:induction false} QueuedOnce(s0: State, es: seq<Event>, t: Tid, b: nat)
    requires Init(s0)
    ensures var s := Exec(s0, es);
            && NoDup(Chain(s, b))
            && (t in Chain(s, b) ==> Waiting(At(s, t)) && forall c: nat :: c != b ==> t !in Chain(s, c))
            && (t in Chain(s, b) && b !in s.lock ==> Q(s, t).lockPtr == Some(b) && s.hash(Q(s, t).key) == b)
            && (Waiting(At(s, t)) && Q(s, t).lockPtr == Some(b) && b !in s.lock ==> t in Chain(s, b))
  {
    InitInv(s0);
    ExecKeeps(s0, es);
    var s := Exec(s0, es);
    assert ThreadOk(s, t);
    assert t in Chain(s, b) <==> Loc(s, t) == Some(b);
    if PlaceOf(s, t).Held? {
      HandlerLocks(s, t, b);
    }
  }

  /** In every run the deletion in unqueue_me happens under the lock of the one chain the entry is on, and from taking a
      waiter up to its store of NULL, or to its store of the new key, a thread handles the entry of a waiter that is still in
      the call. LateRead says what holds after the store of NULL. */
  lemma {:induction false} DeletesUnderLock(s0: State, es: seq<Event>, t: Tid)
    requires Init(s0)
    ensures var s := Exec(s0, es);
            && (At(s, t).Delete? ==> var b := At(s, t).b; b in s.lock && s.lock[b] == t && t in Chain(s, b))
            && (Victim(At(s, t)).Some? ==> Waiting(At(s, Victim(At(s, t)).value)))
  {
    InitInv(s0);
    ExecKeeps(s0, es);
    var s := Exec(s0, es);
    assert ThreadOk(s, t);
    if At(s, t).Delete? {
      assert Loc(s, t) == Some(At(s, t).b);
      assert At(s, t).b in Locks(s.hash, At(s, t));
    }
    if Victim(At(s, t)).Some? {
      assert ThreadOk(s, Victim(At(s, t)).value);
    }
  }

  // ---------------------------------------------------------------------------------------------- the result of unqueue_me

  predicate Cleared(s: State, es: seq<Event>, t: Tid)
    decreases |es|
  {
    es != [] && (Clears(s, es[0], t) || Cleared(Step(s, es[0]), es[1..], t))
  }

  /** Thread t does not return before the last event. */
  predicate StaysIn(s: State, es: seq<Event>, t: Tid)
    decreases |es|
  {
    es == [] || (!At(s, t).Returned? && StaysIn(Step(s, es[0]), es[1..], t))
  }

  /** One event's effect on a waiter between queue_me and its return. */
  lemma {:induction false} WaiterStep(s: State, e: Event, t: Tid)
    requires Inv(s) && Waiting(At(s, t))
    ensures var s' := Step(s, e);
            if PlaceOf(s, t) == Gone || Clears(s, e, t) then At(s', t) == Returned(0) || (Waiting(At(s', t)) && PlaceOf(s', t) == Gone)
            else At(s', t).Deleted? || (Waiting(At(s', t)) && PlaceOf(s', t) != Gone)
  {
    if e.Continue? {
      if e.t == t {
        OwnStep(s, t);
      } else {
        OtherStep(s, e.t, t);
      }
    } else {
      BeginElsewhere(s, e, t);
    }
  }

  lemma {:induction false} DeletedStep(s: State, e: Event, t: Tid)
    requires Inv(s) && At(s, t).Deleted?
    ensures At(Step(s, e), t) == Returned(1) || At(Step(s, e), t).Deleted?
    ensures !Clears(s, e, t)
  {
    assert ThreadOk(s, t);
    if e.Continue? {
      assert ThreadOk(s, e.t);
      if e.t != t {
        OtherStep(s, e.t, t);
      }
    }
  }

  /** A thread that has left the queue itself returns 1. */
  lemma {:induction false} DeletedReturns(s: State, es: seq<Event>, t: Tid)
    requires Inv(s) && At(s, t).Deleted?
    requires StaysIn(s, es, t) && At(Exec(s, es), t).Returned?
    ensures At(Exec(s, es), t).ret == 1 && !Cleared(s, es, t)
    decreases |es|
  {
    assert es != [];
    var s1 := Step(s, es[0]);
    StepKeeps(s, es[0]);
    DeletedStep(s, es[0], t);
    if At(s1, t).Deleted? {
      DeletedReturns(s1, es[1..], t);
    } else {
      assert es[1..] == [];
    }
  }

  /** unqueue_me returns 0 exactly when a waker removed the entry first, and 1 otherwise: in every run in which a queued
      waiter comes to its return. */
  lemma {:induction false} UnqueueResult(s: State, es: seq<Event>, t: Tid)
    requires Inv(s) && Waiting(At(s, t))
    requires StaysIn(s, es, t) && At(Exec(s, es), t).Returned?
    ensures At(Exec(s, es), t).ret == if PlaceOf(s, t) == Gone || Cleared(s, es, t) then 0 else 1
    decreases |es|
  {
    assert es != [];
    var s1 := Step(s, es[0]);
    StepKeeps(s, es[0]);
    WaiterStep(s, es[0], t);
    if Waiting(At(s1, t)) {
      UnqueueResult(s1, es[1..], t);
    } else if At(s1, t).Deleted? {
      DeletedReturns(s1, es[1..], t);
    } else {
      assert es[1..] == [];
    }
  }

  // ---------------------------------------------------------------------------------------------- the read after the store

  /** Thread x is still in its futex_wait number c: the entry, a variable of that call, exists. */
  predicate InCall(s: State, x: Tid, c: nat) {
    Q(s, x).call == c && InWait(At(s, x))
  }

  /** Thread x makes its read of lock_ptr without a lock in this run. */
  predicate Reads(s: State, es: seq<Event>, x: Tid)
    decreases |es|
  {
    es != [] && ((es[0] == Continue(x) && At(s, x).ReadLock?) || Reads(Step(s, es[0]), es[1..], x))
  }

  /** Thread x returns from a futex_wait in this run. */
  predicate Leaves(s: State, es: seq<Event>, x: Tid)
    decreases |es|
  {
    es != [] && ((es[0] == Continue(x) && At(s, x).Returned?) || Leaves(Step(s, es[0]), es[1..], x))
  }

  /** Call c of thread x is over: x is out of it, or in a later one. */
  predicate Over(s: State, x: Tid, c: nat) {
    c <= Q(s, x).call && !InCall(s, x, c)
  }

  lemma {:induction false} OverOwn(s: State, x: Tid, c: nat)
    requires Inv(s) && Over(s, x, c)
    ensures Over(Run(s, x), x, c)
  {
    StepFrame(s, x);
    if InWait(At(s, x)) {
      assert Subject(s, x) == x;
    } else {
      OwnOutside(s, x);
    }
  }

  lemma {:induction false} OverBegin(s: State, e: Event, x: Tid, c: nat)
    requires Over(s, x, c) && !e.Continue?
    ensures Over(Step(s, e), x, c)
  {
  }

  lemma {:induction false} OverStep(s: State, e: Event, x: Tid, c: nat)
    requires Inv(s) && Over(s, x, c)
    ensures Over(Step(s, e), x, c)
  {
    if !e.Continue? {
      OverBegin(s, e, x, c);
    } else if e.t == x {
      OverOwn(s, x, c);
    } else {
      OtherStep(s, e.t, x);
    }
  }

  lemma {:induction false} OverStays(s: State, es: seq<Event>, x: Tid, c: nat)
    requires Inv(s) && Over(s, x, c)
    ensures Over(Exec(s, es), x, c)
    decreases |es|
  {
    if es != [] {
      StepKeeps(s, es[0]);
      OverStep(s, es[0], x, c);
      OverStays(Step(s, es[0]), es[1..], x, c);
    }
  }

  /** A waiter at its return goes on only by returning. */
  lemma {:induction false} ReturnedStays(s: State, es: seq<Event>, x: Tid)
    requires Inv(s) && At(s, x).Returned?
    ensures var c, s' := Q(s, x).call, Exec(s, es);
            if Leaves(s, es, x) then Over(s', x, c) else InCall(s', x, c) && At(s', x).Returned?
    decreases |es|
  {
    if es != [] {
      var e, s1 := es[0], Step(s, es[0]);
      StepKeeps(s, e);
      if e == Continue(x) {
        OverStays(s1, es[1..], x, Q(s, x).call);
      } else {
        if e.Continue? {
          OtherStep(s, e.t, x);
        } else {
          BeginElsewhere(s, e, x);
        }
        ReturnedStays(s1, es[1..], x);
      }
    }
  }

  /** What becomes of a waiter whose lock_ptr has been set to NULL. */
  lemma {:induction false} GoneStays(s: State, es: seq<Event>, x: Tid)
    requires Inv(s) && PlaceOf(s, x) == Gone
    ensures var c, s' := Q(s, x).call, Exec(s, es);
            && (InCall(s', x, c) && Waiting(At(s', x)) <==> !Reads(s, es, x))
            && (InCall(s', x, c) <==> !Leaves(s, es, x))
            && (Leaves(s, es, x) ==> Reads(s, es, x))
    decreases |es|
  {
    assert ThreadOk(s, x);
    if es != [] {
      var e, s1 := es[0], Step(s, es[0]);
      StepKeeps(s, e);
      if e == Continue(x) {
        OwnStep(s, x);
      } else if e.Continue? {
        OtherStep(s, e.t, x);
      } else {
        BeginElsewhere(s, e, x);
      }
      if e == Continue(x) && At(s, x).ReadLock? {
        ReturnedStays(s1, es[1..], x);
      } else {
        GoneStays(s1, es[1..], x);
      }
    }
  }

  /** Thread t makes no step in this run. */
  predicate Rests(es: seq<Event>, t: Tid) {
    forall e :: e in es ==> e != Continue(t)
  }

  lemma {:induction false} RestsThere(s: State, es: seq<Event>, t: Tid)
    requires Inv(s) && Rests(es, t) && At(s, t).WakeResp?
    ensures At(Exec(s, es), t) == At(s, t)
    decreases |es|
  {
    if es != [] {
      var e := es[0];
      assert e in es && forall d :: d in es[1..] ==> d in es;
      StepKeeps(s, e);
      if e.Continue? {
        OtherStep(s, e.t, t);
      } else {
        BeginElsewhere(s, e, t);
      }
      RestsThere(Step(s, e), es[1..], t);
    }
  }

  /** wake_futex reads uti_futex_resp of the entry after its store of NULL. In every run the waiter is then still waiting in
      the call that owns the entry iff it has not made its unlocked read of lock_ptr since the store, and the entry still
      exists iff the waiter has not returned since, which it can only after that read. */
  lemma {:induction false} LateRead(s0: State, before: seq<Event>, t: Tid, x: Tid, es: seq<Event>)
    requires Init(s0) && Clears(Exec(s0, before), Continue(t), x) && Rests(es, t)
    ensures var s := Step(Exec(s0, before), Continue(t));
            var c, s' := Q(s, x).call, Exec(s, es);
            && At(s', t).WakeResp? && At(s', t).x == x
            && (InCall(s', x, c) && Waiting(At(s', x)) <==> !Reads(s, es, x))
            && (InCall(s', x, c) <==> !Leaves(s, es, x))
            && (Leaves(s, es, x) ==> Reads(s, es, x))
  {
    InitInv(s0);
    ExecKeeps(s0, before);
    StepKeeps(Exec(s0, before), Continue(t));
    var s := Step(Exec(s0, before), Continue(t));
    assert ThreadOk(Exec(s0, before), t);
    GoneStays(s, es, x);
    RestsThere(s, es, t);
  }

  /** A waiter that stands before its unlocked read when its lock_ptr is cleared may end its call with its next two steps, and
      the waker's read of the entry comes after. */
  lemma {:induction false} ReturnsFirst(s: State, t: Tid, x: Tid)
    requires Inv(s) && Clears(s, Continue(t), x) && At(s, x).ReadLock?
    ensures var s1 := Step(s, Continue(t));
            var s2 := Exec(s1, [Continue(x), Continue(x)]);
            At(s2, t).WakeResp? && At(s2, t).x == x && !InCall(s2, x, Q(s1, x).call)
  {
    var s1, es := Step(s, Continue(t)), [Continue(x), Continue(x)];
    ClearStep(s, t, x);
    StepKeeps(s, Continue(t));
    ReadsAndLeaves(s1, x);
    GoneStays(s1, es, x);
    RestsThere(s1, es, t);
  }

  lemma {:induction false} ReadsAndLeaves(s: State, x: Tid)
    requires Inv(s) && PlaceOf(s, x) == Gone && At(s, x).ReadLock?
    ensures Leaves(s, [Continue(x), Continue(x)], x)
  {
    OwnStep(s, x);
    var es := [Continue(x), Continue(x)];
    assert es[1..] == [Continue(x)] && Leaves(Step(s, es[0]), es[1..], x);
  }

  lemma {:induction false} ClearStep(s: State, t: Tid, x: Tid)
    requires Inv(s) && Clears(s, Continue(t), x) && InWait(At(s, x))
    ensures var s' := Step(s, Continue(t));
            t != x && PlaceOf(s', x) == Gone && At(s', t).WakeResp? && At(s', t).x == x && At(s', x) == At(s, x)
  {
    OtherStep(s, t, x);
    assert Run(s, t) == RunWake(s, t);
  }

  lemma {:induction false} OneMore(s0: State, es: seq<Event>, e: Event) returns (es': seq<Event>)
    ensures Exec(s0, es') == Step(Exec(s0, es), e)
  {
    es' := es + [e];
    ExecConcat(s0, es, [e]);
    assert [e][1..] == [];
  }

  /** Thread 1 alone in its futex_wait on k, at p. */
  ghost predicate Alone(s0: State, s: State, k: Key, p: Pc) {
    var b := s0.hash(k);
    && s.hash == s0.hash && At(s, 1) == p && At(s, 2) == Idle && s.mem == s0.mem
    && Q(s, 1).key == k && Q(s, 1).val == 0 && Q(s, 1).bits == {0} && (!p.SetLock? ==> Q(s, 1).lockPtr == Some(b))
    && s.lock == (if p.Check? || p.Enqueue? || p.Queued? then map[b := 1] else map[])
    && Chain(s, b) == if p.Queued? || p.Sleep? || p.ReadLock? then [1] else []
  }

  /** Where thread 1 goes next when nobody is in its way. */
  function NextAlone(s0: State, k: Key, p: Pc): Pc {
    var b := s0.hash(k);
    match p
    case SetLock => Lock(b)
    case Lock(_) => Check(b)
    case Check(_) => Enqueue(b)
    case Enqueue(_) => Queued(b)
    case Queued(_) => Sleep
    case _ => ReadLock
  }

  lemma {:induction false} AloneLocks(s0: State, s: State, k: Key, p: Pc)
    requires Alone(s0, s, k, p) && Mem(s0, k) == 0 && (p == SetLock || p == Lock(s0.hash(k)) || p == Check(s0.hash(k)))
    ensures Alone(s0, Run(s, 1), k, NextAlone(s0, k, p))
  {
    assert Run(s, 1) == RunWait(s, 1);
  }

  lemma {:induction false} AloneQueues(s0: State, s: State, k: Key, p: Pc)
    requires Alone(s0, s, k, p) && (p == Enqueue(s0.hash(k)) || p == Queued(s0.hash(k)) || p == Sleep)
    ensures Alone(s0, Run(s, 1), k, NextAlone(s0, k, p))
  {
    assert Run(s, 1) == RunWait(s, 1);
  }

  lemma {:induction false} AloneStarts(s0: State, k: Key)
    requires Init(s0)
    ensures Alone(s0, Step(s0, Wait(1, k, 0, {0})), k, SetLock)
  {
    assert 0 in {0};
  }

  lemma {:induction false} AloneRun(s0: State, k: Key) returns (es: seq<Event>)
    requires Init(s0) && Mem(s0, k) == 0
    ensures Alone(s0, Exec(s0, es), k, Enqueue(s0.hash(k)))
  {
    var b := s0.hash(k);
    AloneStarts(s0, k);
    es := OneMore(s0, [], Wait(1, k, 0, {0}));
    AloneLocks(s0, Exec(s0, es), k, SetLock);
    es := OneMore(s0, es, Continue(1));
    AloneLocks(s0, Exec(s0, es), k, Lock(b));
    es := OneMore(s0, es, Continue(1));
    AloneLocks(s0, Exec(s0, es), k, Check(b));
    es := OneMore(s0, es, Continue(1));
  }

  lemma {:induction false} AloneSleeps(s0: State, k: Key) returns (es: seq<Event>)
    requires Init(s0) && Mem(s0, k) == 0
    ensures Alone(s0, Exec(s0, es), k, ReadLock)
  {
    var b := s0.hash(k);
    es := AloneRun(s0, k);
    AloneQueues(s0, Exec(s0, es), k, Enqueue(b));
    es := OneMore(s0, es, Continue(1));
    AloneQueues(s0, Exec(s0, es), k, Queued(b));
    es := OneMore(s0, es, Continue(1));
    AloneQueues(s0, Exec(s0, es), k, Sleep);
    es := OneMore(s0, es, Continue(1));
  }

  /** Thread 2 holds the bucket lock, about to scan; thread 1 is queued there and about to read its lock_ptr. */
  ghost predicate Scanning(s: State, k: Key) {
    && At(s, 2) == WakeScan(WakeLoop(k, {0}, 1), 0) && At(s, 1) == ReadLock && Chain(s, s.hash(k)) == [1]
    && Q(s, 1).key == k && Q(s, 1).bits == {0}
  }

  lemma {:induction false} WakeEnters(s0: State, s: State, k: Key)
    requires Alone(s0, s, k, ReadLock)
    ensures Step(s, Wake(2, k, 1, {0})) == Go(s, 2, WakeLock(k, {0}, 1))
  {
    assert 0 in {0};
  }

  lemma {:induction false} WakeLocks(s: State, k: Key)
    requires At(s, 1) == ReadLock && Q(s, 1).key == k && Q(s, 1).bits == {0} && s.lock == map[] && Chain(s, s.hash(k)) == [1]
    requires At(s, 2) == WakeLock(k, {0}, 1)
    ensures Scanning(Run(s, 2), k)
  {
    assert Run(s, 2) == RunWake(s, 2);
  }

  lemma {:induction false} WakePicks(s: State, k: Key)
    requires Scanning(s, k)
    ensures Clears(Run(s, 2), Continue(2), 1) && At(Run(s, 2), 1) == ReadLock
  {
    assert Run(s, 2) == RunWake(s, 2);
    assert 0 in Q(s, 1).bits * {0};
  }

  lemma {:induction false} WakeReady(s0: State, s: State, k: Key)
    requires Alone(s0, s, k, ReadLock)
    ensures Scanning(Run(Go(s, 2, WakeLock(k, {0}, 1)), 2), k)
  {
    WakeLocks(Go(s, 2, WakeLock(k, {0}, 1)), k);
  }

  lemma {:induction false} EnteredRun(s0: State, k: Key) returns (es: seq<Event>, s: State)
    requires Init(s0) && Mem(s0, k) == 0
    ensures Alone(s0, s, k, ReadLock) && Exec(s0, es) == Go(s, 2, WakeLock(k, {0}, 1))
  {
    es := AloneSleeps(s0, k);
    s := Exec(s0, es);
    WakeEnters(s0, s, k);
    es := OneMore(s0, es, Wake(2, k, 1, {0}));
  }

  lemma {:induction false} ScanningRun(s0: State, k: Key) returns (es: seq<Event>)
    requires Init(s0) && Mem(s0, k) == 0
    ensures Scanning(Exec(s0, es), k)
  {
    var s;
    es, s := EnteredRun(s0, k);
    WakeReady(s0, s, k);
    es := OneMore(s0, es, Continue(2));
  }

  /** The state ReturnsFirst speaks of is reached: thread 1 waits and leaves its sleep, and thread 2 wakes it. */
  lemma {:induction false} LateReadRun(s0: State, k: Key) returns (es: seq<Event>)
    requires Init(s0) && Mem(s0, k) == 0
    ensures Clears(Exec(s0, es), Continue(2), 1) && At(Exec(s0, es), 1).ReadLock?
  {
    es := ScanningRun(s0, k);
    WakePicks(Exec(s0, es), k);
    es := OneMore(s0, es, Continue(2));
  }

  lemma {:induction false} ExecConcat(s: State, a: seq<Event>, b: seq<Event>)
    ensures Exec(s, a + b) == Exec(Exec(s, a), b)
    decreases |a|
  {
    if a == [] {
      assert a + b == b;
    } else {
      assert (a + b)[1..] == a[1..] + b;
      ExecConcat(Step(s, a[0]), a[1..], b);
    }
  }

  // ---------------------------------------------------------------------------------------------- no deadlock

  /** The lock a thread is spinning on. */
  function Waits(s: State, p: Pc): Option<nat> {
    match p
    case Lock(b) => Some(b)
    case Relock(b) => Some(b)
    case WakeLock(key, _, _) => Some(s.hash(key))
    case DoubleLock1(r, _) => Some(Lo(s.hash, r))
    case DoubleLock2(r, _) => Some(Hi(s.hash, r))
    case _ => None
  }

  /** The thread's next step is not blocked. */
  predicate CanMove(s: State, t: Tid) {
    !At(s, t).Idle? && (Waits(s, At(s, t)).Some? ==> Waits(s, At(s, t)).value !in s.lock)
  }

  /** The thread's next step, which for futex_wake_op's operation is any outcome of it, takes it further. */
  ghost predicate Moves(s: State, t: Tid) {
    if At(s, t).OpApply? then forall v, ret :: At(Step(s, Operate(t, v, ret)), t) != At(s, t) else At(Run(s, t), t) != At(s, t)
  }

  lemma {:induction false} WaitMoves(s: State, t: Tid)
    requires CanMove(s, t) && InWait(At(s, t))
    ensures Moves(s, t)
  {
  }

  lemma {:induction false} WakeMoves(s: State, t: Tid)
    requires CanMove(s, t) && (At(s, t).WakeLock? || At(s, t).WakeClear? || At(s, t).WakeUnlock?)
    ensures Moves(s, t)
  {
  }

  lemma {:induction false} LoopMoves(s: State, t: Tid, l: Loop, count: int)
    requires At(s, t) == WakeScan(l, count)
    ensures Moves(s, t)
  {
    var f := First(s, Chain(s, LoopBucket(s.hash, l)), LoopKey(l), LoopBits(l), {});
    assert f.Some? ==> At(Run(s, t), t).WakeClear?;
    assert f.None? ==> At(Run(s, t), t) == LoopNext(l);
    assert LoopNext(l) != WakeScan(l, count);
  }

  lemma {:induction false} RespMoves(s: State, t: Tid, who: Caller, count: int, x: Tid)
    requires At(s, t) == WakeResp(who, count, x)
    ensures Moves(s, t)
  {
    assert At(Run(s, t), t) == AfterWake(who, count);
  }

  lemma {:induction false} DoubleMoves(s: State, t: Tid)
    requires CanMove(s, t) && (At(s, t).DoubleLock1? || At(s, t).DoubleLock2? || At(s, t).DoubleUnlock1? || At(s, t).DoubleUnlock2?)
    ensures Moves(s, t)
  {
    assert Run(s, t) == RunDouble(s, t);
  }

  lemma {:induction false} ScanMoves(s: State, t: Tid, r: Req, count: int, done: set<Tid>)
    requires At(s, t) == ReqScan(r, count, done)
    ensures Moves(s, t)
  {
    assert Run(s, t) == RunReqScan(s, t, r, count, done);
  }

  lemma {:induction false} RequeueMoves(s: State, t: Tid)
    requires At(s, t).OpApply? || At(s, t).ReqCheck? || At(s, t).ReqAdd? || At(s, t).ReqPtr? || At(s, t).ReqKey?
    ensures Moves(s, t)
  {
  }

  /** A step that no lock blocks is made. */
  lemma {:induction false} NoStutter(s: State, t: Tid)
    requires CanMove(s, t)
    ensures Moves(s, t)
  {
    var p := At(s, t);
    if InWait(p) {
      WaitMoves(s, t);
    } else if p.WakeScan? {
      LoopMoves(s, t, p.l, p.count);
    } else if p.WakeResp? {
      RespMoves(s, t, p.who, p.count, p.x);
    } else if p.WakeLock? || p.WakeClear? || p.WakeUnlock? {
      WakeMoves(s, t);
    } else if p.DoubleLock1? || p.DoubleLock2? || p.DoubleUnlock1? || p.DoubleUnlock2? {
      DoubleMoves(s, t);
    } else if p.ReqScan? {
      ScanMoves(s, t, p.r, p.count, p.done);
    } else {
      RequeueMoves(s, t);
    }
  }

  predicate HoldsSome(s: State, u: Tid) {
    exists b: nat :: b in s.lock && s.lock[b] == u
  }

  lemma {:induction false} LocksHeld(s: State, u: Tid)
    requires Inv(s) && Locks(s.hash, At(s, u)) != {}
    ensures HoldsSome(s, u)
  {
    var b :| b in Locks(s.hash, At(s, u));
    assert b in s.lock && s.lock[b] == u;
  }

  lemma {:induction false} SomeStep(s: State, t: Tid) returns (u: Tid)
    requires Inv(s) && !At(s, t).Idle?
    ensures Moves(s, u) && (u == t || HoldsSome(s, u))
  {
    u := SomeoneMoves(s, t);
    NoStutter(s, u);
    if u != t {
      LocksHeld(s, u);
    }
  }

  /** In every run, whatever a thread spins on, some thread's next step takes it further: its own, or that of one that holds a
      lock. */
  lemma {:induction false} NoDeadlock(s0: State, es: seq<Event>, t: Tid) returns (u: Tid)
    requires Init(s0) && !At(Exec(s0, es), t).Idle?
    ensures var s := Exec(s0, es); Moves(s, u) && (u == t || HoldsSome(s, u))
  {
    InitInv(s0);
    ExecKeeps(s0, es);
    u := SomeStep(Exec(s0, es), t);
  }

  /** Locks are taken in bucket order, so following holders upwards ends at a thread that can move. */
  lemma {:induction false} SomeoneMoves(s: State, t: Tid) returns (u: Tid)
    requires Inv(s) && !At(s, t).Idle?
    ensures CanMove(s, u) && (u == t || Locks(s.hash, At(s, u)) != {})
    decreases if Waits(s, At(s, t)).Some? then |Above(s, Waits(s, At(s, t)).value)| else 0
  {
    var w := Waits(s, At(s, t));
    if w.None? || w.value !in s.lock {
      return t;
    }
    var b := w.value;
    u := s.lock[b];
    assert b in Locks(s.hash, At(s, u)) && ThreadOk(s, u);
    var w' := Waits(s, At(s, u));
    if w'.Some? && w'.value in s.lock {
      assert b < w'.value;
      assert w'.value in Above(s, b) && w'.value !in Above(s, w'.value);
      assert Above(s, w'.value) <= Above(s, b);
      SmallerSet(Above(s, w'.value), Above(s, b), w'.value);
      u := SomeoneMoves(s, u);
    }
  }

  function Above(s: State, b: nat): set<nat> {
    set c | c in s.lock.Keys && c > b
  }

  lemma {:induction false} SmallerSet(a: set<nat>, b: set<nat>, x: nat)
    requires a <= b && x in b && x !in a
    ensures |a| < |b|
  {
    assert b == a + (b - a) && x in b - a;
    assert |b| == |a| + |b - a|;
  }
}
