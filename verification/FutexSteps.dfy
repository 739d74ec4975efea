/** What one step of one thread of the futex protocol does to the others, and to the chains. */
module FutexSteps {

  import opened Seqs
  import opened Futex
  import opened FutexProtocol

  lemma {:induction false} ExecKeeps(s: State, es: seq<Event>)
    requires Inv(s)
    ensures Inv(Exec(s, es))
    decreases |es|
  {
    if es != [] {
      StepKeeps(s, es[0]);
      ExecKeeps(Step(s, es[0]), es[1..]);
    }
  }

  // ---------------------------------------------------------------------------------------------- the frame of a step

  /** The waiter whose entry or place thread u's next step may change; itself, if there is no other. */
  function Subject(s: State, u: Tid): Tid {
    match At(s, u)
    case WakeScan(l, _) =>
      var f := First(s, Chain(s, LoopBucket(s.hash, l)), LoopKey(l), LoopBits(l), {});
      if f.Some? then f.value else u
    case ReqScan(r, count, done) =>
      var f := First(s, Chain(s, B1(s.hash, r)), r.key1, None, done);
      if count - r.nrWake < r.nr2 && f.Some? then f.value else u
    case WakeClear(_, _, x) => x
    case ReqAdd(_, _, _, x) => x
    case ReqPtr(_, _, _, x) => x
    case ReqKey(_, _, _, x) => x
    case _ => u
  }

  predicate SameWait(s: State, s': State, x: Tid) {
    Q(s', x).call == Q(s, x).call && Q(s', x).bits == Q(s, x).bits && Q(s', x).val == Q(s, x).val
  }

  /** Only u's program counter, x's entry and place, and the chains of ls differ; only ReqKey changes what x waits for. */
  ghost predicate Frame(s: State, s': State, u: Tid, x: Tid, ls: set<nat>) {
    && s'.hash == s.hash
    && (forall v :: v != u ==> At(s', v) == At(s, v))
    && (forall v :: v != x ==> Q(s', v) == Q(s, v) && PlaceOf(s', v) == PlaceOf(s, v))
    && (forall b: nat :: b !in ls ==> Chain(s', b) == Chain(s, b))
    && SameWait(s, s', x) && (At(s, u).ReqKey? || Q(s', x).key == Q(s, x).key)
  }

  lemma {:induction false} FrameGo(s: State, s': State, u: Tid, x: Tid, p: Pc, ls: set<nat>)
    requires Frame(s, s', u, x, ls)
    ensures Frame(s, Go(s', u, p), u, x, ls)
  {
  }

  lemma {:induction false} FrameSelf(s: State, u: Tid, x: Tid, ls: set<nat>)
    ensures Frame(s, s, u, x, ls)
  {
  }

  lemma {:induction false} FrameEntry(s: State, s': State, u: Tid, x: Tid, e: Entry, ls: set<nat>)
    requires Frame(s, s', u, x, ls) && e.call == Q(s, x).call && e.bits == Q(s, x).bits && e.val == Q(s, x).val
    requires At(s, u).ReqKey? || e.key == Q(s, x).key
    ensures Frame(s, SetEntry(s', x, e), u, x, ls)
  {
  }

  lemma {:induction false} FramePlace(s: State, s': State, u: Tid, x: Tid, p: Place, ls: set<nat>)
    requires Frame(s, s', u, x, ls)
    ensures Frame(s, SetPlace(s', x, p), u, x, ls)
  {
  }

  lemma {:induction false} FrameChain(s: State, s': State, u: Tid, x: Tid, b: nat, c: seq<Tid>, ls: set<nat>)
    requires Frame(s, s', u, x, ls) && b in ls
    ensures Frame(s, s'.(chain := s'.chain[b := c]), u, x, ls)
  {
    var s1 := s'.(chain := s'.chain[b := c]);
    forall d: nat | d !in ls ensures Chain(s1, d) == Chain(s, d) {
      assert Chain(s1, d) == Chain(s', d);
    }
  }

  lemma {:induction false} FrameLocks(s: State, u: Tid, x: Tid, b: nat, p: Pc, ls: set<nat>)
    ensures Frame(s, Go(s, u, p), u, x, ls) && Frame(s, Acquire(s, u, b, p), u, x, ls) && Frame(s, Release(s, u, b, p), u, x, ls)
  {
    FrameSelf(s, u, x, ls);
    FrameGo(s, s, u, x, p, ls);
    FrameGo(s, s.(lock := s.lock[b := u]), u, x, p, ls);
    FrameGo(s, s.(lock := s.lock - {b}), u, x, p, ls);
  }

  lemma {:induction false} FrameWait(s: State, u: Tid, ls: set<nat>)
    requires At(s, u).Enqueue? ==> At(s, u).b in ls
    ensures Frame(s, RunWait(s, u), u, u, ls)
  {
    FrameSelf(s, u, u, ls);
    match At(s, u)
    case SetLock =>
      var e := Q(s, u).(lockPtr := Some(s.hash(Q(s, u).key)));
      FrameEntry(s, s, u, u, e, ls);
      FrameGo(s, SetEntry(s, u, e), u, u, Lock(s.hash(Q(s, u).key)), ls);
    case Lock(b) => FrameLocks(s, u, u, b, Check(b), ls);
    case Check(b) => FrameLocks(s, u, u, b, if Mem(s, Q(s, u).key) == Q(s, u).val then Enqueue(b) else Refused(b), ls);
    case Enqueue(b) =>
      FrameChain(s, s, u, u, b, Chain(s, b) + [u], ls);
      FramePlace(s, Add(s, b, u), u, u, On(b), ls);
      FrameGo(s, SetPlace(Add(s, b, u), u, On(b)), u, u, Queued(b), ls);
    case Queued(b) => FrameLocks(s, u, u, b, Sleep, ls);
    case Refused(b) => FrameLocks(s, u, u, b, Returned(-EAGAIN), ls);
    case Sleep => FrameLocks(s, u, u, 0, ReadLock, ls);
    case _ =>
  }

  lemma {:induction false} FrameRead(s: State, u: Tid, l: Option<nat>, ls: set<nat>)
    ensures Frame(s, if l.Some? then Go(s, u, Relock(l.value)) else Go(SetPlace(s, u, Out), u, Returned(0)), u, u, ls)
  {
    FrameSelf(s, u, u, ls);
    if l.Some? {
      FrameGo(s, s, u, u, Relock(l.value), ls);
    } else {
      FramePlace(s, s, u, u, Out, ls);
      FrameGo(s, SetPlace(s, u, Out), u, u, Returned(0), ls);
    }
  }

  lemma {:induction false} FrameDelete(s: State, u: Tid, b: nat, ls: set<nat>)
    requires b in ls
    ensures Frame(s, Go(SetPlace(Del(s, b, u), u, Out), u, Deleted(b)), u, u, ls)
  {
    FrameSelf(s, u, u, ls);
    FrameChain(s, s, u, u, b, Without(Chain(s, b), u), ls);
    FramePlace(s, Del(s, b, u), u, u, Out, ls);
    FrameGo(s, SetPlace(Del(s, b, u), u, Out), u, u, Deleted(b), ls);
  }

  lemma {:induction false} FrameUnqueue(s: State, u: Tid, ls: set<nat>)
    requires At(s, u).Delete? ==> At(s, u).b in ls
    ensures Frame(s, RunUnqueue(s, u), u, u, ls)
  {
    FrameSelf(s, u, u, ls);
    match At(s, u)
    case ReadLock => FrameRead(s, u, Q(s, u).lockPtr, ls);
    case Relock(b) => FrameLocks(s, u, u, b, Recheck(b), ls);
    case Recheck(b) => FrameLocks(s, u, u, b, if Q(s, u).lockPtr == Some(b) then Delete(b) else Retry(b), ls);
    case Retry(b) => FrameLocks(s, u, u, b, ReadLock, ls);
    case Delete(b) => FrameDelete(s, u, b, ls);
    case Deleted(b) => FrameLocks(s, u, u, b, Returned(1), ls);
    case Returned(_) => FrameLocks(s, u, u, 0, Idle, ls);
    case _ =>
  }

  /** A waiter taken up, and off its chain unless it stays on it. */
  lemma {:induction false} FrameTake(s: State, u: Tid, x: Tid, b: nat, p: Pc, ls: set<nat>)
    requires b in ls
    ensures Frame(s, Go(Del(SetPlace(s, x, Held(u)), b, x), u, p), u, x, ls) && Frame(s, Go(SetPlace(s, x, Held(u)), u, p), u, x, ls)
  {
    FrameSelf(s, u, x, ls);
    FramePlace(s, s, u, x, Held(u), ls);
    FrameChain(s, SetPlace(s, x, Held(u)), u, x, b, Without(Chain(s, b), x), ls);
    FrameGo(s, SetPlace(s, x, Held(u)), u, x, p, ls);
    FrameGo(s, Del(SetPlace(s, x, Held(u)), b, x), u, x, p, ls);
  }

  lemma {:induction false} FrameWake(s: State, u: Tid, ls: set<nat>)
    requires At(s, u).WakeLock? || At(s, u).WakeScan? || At(s, u).WakeClear? || At(s, u).WakeResp? || At(s, u).WakeUnlock?
    requires At(s, u).WakeScan? ==> LoopBucket(s.hash, At(s, u).l) in ls
    ensures Frame(s, RunWake(s, u), u, Subject(s, u), ls)
  {
    match At(s, u)
    case WakeLock(key, bits, n) => FrameLocks(s, u, u, s.hash(key), WakeScan(WakeLoop(key, bits, n), 0), ls);
    case WakeScan(l, count) =>
      var b, x := LoopBucket(s.hash, l), Subject(s, u);
      FrameLocks(s, u, x, b, LoopNext(l), ls);
      FrameTake(s, u, x, b, WakeClear(ByLoop(l), count, x), ls);
    case WakeClear(who, count, x) =>
      FrameSelf(s, u, x, ls);
      FrameEntry(s, s, u, x, Q(s, x).(lockPtr := None), ls);
      FramePlace(s, SetEntry(s, x, Q(s, x).(lockPtr := None)), u, x, Gone, ls);
      FrameGo(s, Nulled(s, x), u, x, WakeResp(who, count, x), ls);
    case WakeResp(who, count, _) => FrameLocks(s, u, u, 0, AfterWake(who, count), ls);
    case WakeUnlock(key) => FrameLocks(s, u, u, s.hash(key), Idle, ls);
  }

  lemma {:induction false} FrameDouble(s: State, u: Tid, ls: set<nat>)
    ensures Frame(s, RunDouble(s, u), u, u, ls)
  {
    var h := s.hash;
    FrameSelf(s, u, u, ls);
    match At(s, u)
    case DoubleLock1(r, op) => FrameLocks(s, u, u, Lo(h, r), if Lo(h, r) == Hi(h, r) then Inside(r, op) else DoubleLock2(r, op), ls);
    case DoubleLock2(r, op) => FrameLocks(s, u, u, Hi(h, r), Inside(r, op), ls);
    case DoubleUnlock1(r, retry) => FrameLocks(s, u, u, B1(h, r), if B1(h, r) != B2(h, r) then DoubleUnlock2(r, retry) else Outside(r, retry), ls);
    case DoubleUnlock2(r, retry) => FrameLocks(s, u, u, B2(h, r), Outside(r, retry), ls);
    case _ =>
  }

  lemma {:induction false} FrameReqScan(s: State, u: Tid, r: Req, count: int, done: set<Tid>, ls: set<nat>)
    requires At(s, u) == ReqScan(r, count, done) && B1(s.hash, r) in ls
    ensures Frame(s, RunReqScan(s, u, r, count, done), u, Subject(s, u), ls)
  {
    var b, x := B1(s.hash, r), Subject(s, u);
    if count - r.nrWake >= r.nr2 || First(s, Chain(s, b), r.key1, None, done).None? {
      FrameLocks(s, u, x, b, DoubleUnlock1(r, false), ls);
    } else if count + 1 <= r.nrWake {
      FrameTake(s, u, x, b, WakeClear(ByRequeue(r, done + {x}), count + 1, x), ls);
    } else if b != B2(s.hash, r) {
      FrameTake(s, u, x, b, ReqAdd(r, count + 1, done + {x}, x), ls);
    } else {
      FrameTake(s, u, x, b, ReqKey(r, count + 1, done + {x}, x), ls);
    }
  }

  lemma {:induction false} FrameRequeue(s: State, u: Tid, ls: set<nat>)
    requires At(s, u).ReqCheck? || At(s, u).ReqScan? || At(s, u).ReqAdd? || At(s, u).ReqPtr? || At(s, u).ReqKey? || At(s, u).OpApply?
    requires (At(s, u).ReqScan? ==> B1(s.hash, At(s, u).r) in ls) && (At(s, u).ReqAdd? ==> B2(s.hash, At(s, u).r) in ls)
    ensures Frame(s, RunRequeue(s, u), u, Subject(s, u), ls)
  {
    match At(s, u)
    case OpApply(_) => FrameSelf(s, u, u, ls);
    case ReqCheck(r) => FrameLocks(s, u, u, 0, if r.cmp.Some? && Mem(s, r.key1) != r.cmp.value then DoubleUnlock1(r, false) else ReqScan(r, 0, {}), ls);
    case ReqScan(r, count, done) => FrameReqScan(s, u, r, count, done, ls);
    case ReqAdd(r, count, done, x) =>
      FrameSelf(s, u, x, ls);
      FrameChain(s, s, u, x, B2(s.hash, r), Chain(s, B2(s.hash, r)) + [x], ls);
      FrameGo(s, Add(s, B2(s.hash, r), x), u, x, ReqPtr(r, count, done, x), ls);
    case ReqPtr(r, count, done, x) =>
      var e := Q(s, x).(lockPtr := Some(B2(s.hash, r)));
      FrameSelf(s, u, x, ls);
      FrameEntry(s, s, u, x, e, ls);
      FrameGo(s, SetEntry(s, x, e), u, x, ReqKey(r, count, done, x), ls);
    case ReqKey(r, count, done, x) =>
      var e := Q(s, x).(key := r.key2, moved := true);
      FrameSelf(s, u, x, ls);
      FrameEntry(s, s, u, x, e, ls);
      FramePlace(s, SetEntry(s, x, e), u, x, On(B2(s.hash, r)), ls);
      FrameGo(s, SetPlace(SetEntry(s, x, e), x, On(B2(s.hash, r))), u, x, ReqScan(r, count, done), ls);
  }

  lemma {:induction false} StepFrame(s: State, u: Tid)
    ensures Frame(s, Run(s, u), u, Subject(s, u), Locks(s.hash, At(s, u)))
  {
    var p := At(s, u);
    var ls := Locks(s.hash, p);
    if p.WakeLock? || p.WakeScan? || p.WakeClear? || p.WakeResp? || p.WakeUnlock? {
      FrameWake(s, u, ls);
    } else if p.ReqCheck? || p.ReqScan? || p.ReqAdd? || p.ReqPtr? || p.ReqKey? || p.OpApply? {
      FrameRequeue(s, u, ls);
    } else {
      FrameWait(s, u, ls);
      FrameUnqueue(s, u, ls);
      FrameDouble(s, u, ls);
    }
  }

  // ---------------------------------------------------------------------------------------------- another thread's step

  /** Event e is the store of NULL into t's lock_ptr by a waker or requeuer. */
  predicate Clears(s: State, e: Event, t: Tid) {
    e.Continue? && At(s, e.t).WakeClear? && At(s, e.t).x == t
  }

  /** A waiter a scan stops at has not been removed by a waker. */
  lemma {:induction false} FoundNotGone(s: State, b: nat, x: Tid)
    requires Inv(s) && x in Chain(s, b)
    ensures PlaceOf(s, x) != Gone && PlaceOf(s, x) != Out
  {
    assert Loc(s, x) == Some(b);
  }

  /** What thread u's step does to another thread t: only the store of NULL removes it from the queues, and only
      requeueing changes what it waits for. */
  ghost predicate Undisturbed(s: State, s': State, u: Tid, t: Tid) {
    && At(s', t) == At(s, t)
    && (PlaceOf(s', t) == Gone <==> PlaceOf(s, t) == Gone || Clears(s, Continue(u), t))
    && (PlaceOf(s', t) == Out <==> PlaceOf(s, t) == Out)
    && (Q(s', t).moved || Q(s', t).(lockPtr := Q(s, t).lockPtr) == Q(s, t))
    && Q(s', t).call == Q(s, t).call
  }

  lemma {:induction false} TakenWake(s: State, u: Tid, l: Loop, count: int)
    requires At(s, u) == WakeScan(l, count) && Subject(s, u) != u
    ensures var x, s' := Subject(s, u), RunWake(s, u); PlaceOf(s', x) == Held(u) && Q(s', x) == Q(s, x) && x in Chain(s, LoopBucket(s.hash, l))
  {
  }

  lemma {:induction false} TakenRequeue(s: State, u: Tid, r: Req, count: int, done: set<Tid>)
    requires At(s, u) == ReqScan(r, count, done) && Subject(s, u) != u
    ensures var x, s' := Subject(s, u), RunReqScan(s, u, r, count, done);
            PlaceOf(s', x) == Held(u) && Q(s', x) == Q(s, x) && x in Chain(s, B1(s.hash, r))
  {
  }

  lemma {:induction false} OtherTaken(s: State, u: Tid, t: Tid)
    requires Inv(s) && u != t && t == Subject(s, u) && (At(s, u).WakeScan? || At(s, u).ReqScan?)
    ensures Undisturbed(s, Run(s, u), u, t)
  {
    StepFrame(s, u);
    match At(s, u) {
      case WakeScan(l, count) =>
        TakenWake(s, u, l, count);
        FoundNotGone(s, LoopBucket(s.hash, l), t);
      case ReqScan(r, count, done) =>
        TakenRequeue(s, u, r, count, done);
        FoundNotGone(s, B1(s.hash, r), t);
    }
  }

  lemma {:induction false} OtherHeld(s: State, u: Tid, t: Tid)
    requires Inv(s) && u != t && (At(s, u).WakeClear? || At(s, u).ReqAdd? || At(s, u).ReqPtr? || At(s, u).ReqKey?) && At(s, u).x == t
    ensures Undisturbed(s, Run(s, u), u, t)
  {
    assert ThreadOk(s, u);
  }

  lemma {:induction false} OtherStep(s: State, u: Tid, t: Tid)
    requires Inv(s) && u != t
    ensures Undisturbed(s, Run(s, u), u, t)
  {
    StepFrame(s, u);
    if t == Subject(s, u) {
      if At(s, u).WakeScan? || At(s, u).ReqScan? {
        OtherTaken(s, u, t);
      } else {
        OtherHeld(s, u, t);
      }
    }
  }

  /** A call begun or a store made leaves a thread that is in a call, but not at its own operation, where it is. */
  lemma {:induction false} BeginElsewhere(s: State, e: Event, t: Tid)
    requires !e.Continue? && !At(s, t).Idle? && !At(s, t).OpApply?
    ensures At(Step(s, e), t) == At(s, t) && PlaceOf(Step(s, e), t) == PlaceOf(s, t) && Q(Step(s, e), t) == Q(s, t)
  {
  }

  // ---------------------------------------------------------------------------------------------- a thread's own step

  /** In futex_wait, from its first step to its return. */
  predicate InWait(p: Pc) {
    p.SetLock? || p.Lock? || p.Check? || p.Enqueue? || p.Refused? || p.Deleted? || p.Returned? || Waiting(p)
  }

  /** A waiter's own step: it ends with 0 when it reads the NULL stored by a waker, and leaves the queue itself otherwise. */
  lemma {:induction false} OwnStep(s: State, t: Tid)
    requires Inv(s) && Waiting(At(s, t))
    ensures var s' := Run(s, t);
            if PlaceOf(s, t) == Gone then
              if At(s, t).ReadLock? then At(s', t) == Returned(0) else Waiting(At(s', t)) && PlaceOf(s', t) == Gone
            else At(s', t).Deleted? || (Waiting(At(s', t)) && PlaceOf(s', t) != Gone)
    ensures Q(Run(s, t), t) == Q(s, t)
  {
    assert ThreadOk(s, t);
    if At(s, t).ReadLock? && Q(s, t).lockPtr.None? {
      NullMeansGone(s, t);
    }
  }

  /** A waker or requeuer never takes itself up. */
  lemma {:induction false} NotSubject(s: State, t: Tid)
    requires Inv(s) && !InWait(At(s, t))
    ensures PlaceOf(s, t) == Out && (Subject(s, t) == t ==> !At(s, t).WakeClear? && !At(s, t).ReqAdd? && !At(s, t).ReqPtr? && !At(s, t).ReqKey?)
    ensures forall b: nat :: t !in Chain(s, b)
  {
    assert ThreadOk(s, t);
    forall b: nat ensures t !in Chain(s, b) {
      if t in Chain(s, b) {
        FoundNotGone(s, b, t);
      }
    }
  }

  /** A step outside futex_wait leaves the thread's own entry and place alone, and does not lead into futex_wait. */
  predicate StaysOutside(s: State, s': State, t: Tid) {
    PlaceOf(s', t) == Out && !InWait(At(s', t)) && Q(s', t) == Q(s, t)
  }

  lemma {:induction false} LoopOutside(l: Loop)
    ensures !InWait(LoopNext(l))
  {
  }

  lemma {:induction false} WakeOutside(who: Caller, count: int)
    ensures !InWait(AfterWake(who, count))
  {
    if who.ByLoop? {
      LoopOutside(who.l);
    }
  }

  lemma {:induction false} NextWake(s: State, t: Tid)
    requires At(s, t).WakeLock? || At(s, t).WakeScan? || At(s, t).WakeClear? || At(s, t).WakeResp? || At(s, t).WakeUnlock?
    ensures !InWait(At(RunWake(s, t), t))
  {
    var p := At(s, t);
    if p.WakeScan? {
      LoopOutside(p.l);
    } else if p.WakeResp? {
      WakeOutside(p.who, p.count);
    }
  }

  lemma {:induction false} DoubleOutside(r: Req, b: bool)
    ensures !InWait(Inside(r, b)) && !InWait(Outside(r, b))
  {
  }

  lemma {:induction false} NextDouble(s: State, t: Tid)
    requires At(s, t).DoubleLock1? || At(s, t).DoubleLock2? || At(s, t).DoubleUnlock1? || At(s, t).DoubleUnlock2?
    ensures !InWait(At(RunDouble(s, t), t))
  {
    var p := At(s, t);
    DoubleOutside(p.r, if p.DoubleLock1? || p.DoubleLock2? then p.op else p.retry);
  }

  lemma {:induction false} NextRequeue(s: State, t: Tid)
    requires At(s, t).OpApply? || At(s, t).ReqCheck? || At(s, t).ReqScan? || At(s, t).ReqAdd? || At(s, t).ReqPtr? || At(s, t).ReqKey?
    ensures !InWait(At(RunRequeue(s, t), t))
  {
    if At(s, t).ReqScan? {
      NextReqScan(s, t, At(s, t).r, At(s, t).count, At(s, t).done);
    }
  }

  lemma {:induction false} NextReqScan(s: State, t: Tid, r: Req, count: int, done: set<Tid>)
    ensures !InWait(At(RunReqScan(s, t, r, count, done), t))
  {
    var f := First(s, Chain(s, B1(s.hash, r)), r.key1, None, done);
    if count - r.nrWake >= r.nr2 || f.None? {
      assert At(RunReqScan(s, t, r, count, done), t).DoubleUnlock1?;
    } else {
      var p := At(RunReqScan(s, t, r, count, done), t);
      assert p.WakeClear? || p.ReqAdd? || p.ReqKey?;
    }
  }

  lemma {:induction false} NextOutside(s: State, t: Tid)
    requires !InWait(At(s, t))
    ensures !InWait(At(Run(s, t), t))
  {
    var p := At(s, t);
    if p.WakeLock? || p.WakeScan? || p.WakeClear? || p.WakeResp? || p.WakeUnlock? {
      NextWake(s, t);
    } else if p.DoubleLock1? || p.DoubleLock2? || p.DoubleUnlock1? || p.DoubleUnlock2? {
      NextDouble(s, t);
    } else if !p.Idle? {
      NextRequeue(s, t);
    }
  }

  lemma {:induction false} SelfWake(s: State, t: Tid)
    requires At(s, t).WakeLock? || (At(s, t).WakeScan? && Subject(s, t) == t && forall b: nat :: t !in Chain(s, b))
             || At(s, t).WakeResp? || At(s, t).WakeUnlock?
    ensures RunWake(s, t).place == s.place && RunWake(s, t).q == s.q
  {
  }

  lemma {:induction false} SelfDouble(s: State, t: Tid)
    ensures RunDouble(s, t).place == s.place && RunDouble(s, t).q == s.q
  {
  }

  lemma {:induction false} SelfRequeue(s: State, t: Tid)
    requires At(s, t).OpApply? || At(s, t).ReqCheck? || (At(s, t).ReqScan? && Subject(s, t) == t && forall b: nat :: t !in Chain(s, b))
    ensures RunRequeue(s, t).place == s.place && RunRequeue(s, t).q == s.q
  {
  }

  lemma {:induction false} SelfOutside(s: State, t: Tid)
    requires Inv(s) && !InWait(At(s, t)) && Subject(s, t) == t
    ensures PlaceOf(Run(s, t), t) == Out && Q(Run(s, t), t) == Q(s, t)
  {
    NotSubject(s, t);
    var p := At(s, t);
    if p.WakeLock? || p.WakeScan? || p.WakeResp? || p.WakeUnlock? {
      SelfWake(s, t);
    } else if p.DoubleLock1? || p.DoubleLock2? || p.DoubleUnlock1? || p.DoubleUnlock2? {
      SelfDouble(s, t);
    } else if !p.Idle? {
      SelfRequeue(s, t);
    }
  }

  lemma {:induction false} OwnOutside(s: State, t: Tid)
    requires Inv(s) && !InWait(At(s, t))
    ensures StaysOutside(s, Run(s, t), t)
  {
    NextOutside(s, t);
    StepFrame(s, t);
    if Subject(s, t) == t {
      SelfOutside(s, t);
    } else {
      NotSubject(s, t);
    }
  }

  // ---------------------------------------------------------------------------------------------- a locked chain

  /** Bucket b's chain, and what the waiters on it wait for, are the same in both states. */
  ghost predicate SameChain(s: State, s': State, b: nat) {
    && s'.hash == s.hash && Chain(s', b) == Chain(s, b)
    && forall x :: x in Chain(s, b) ==> Q(s', x).key == Q(s, x).key && Q(s', x).bits == Q(s, x).bits
  }

  /** Requeueing rekeys a waiter that is on a chain the requeuer has locked. */
  lemma {:induction false} RekeyedElsewhere(s: State, u: Tid, b: nat)
    requires Inv(s) && b !in Locks(s.hash, At(s, u)) && At(s, u).ReqKey?
    ensures Subject(s, u) !in Chain(s, b)
  {
    var x := At(s, u).x;
    assert ThreadOk(s, u);
    assert Loc(s, x) == Some(B2(s.hash, At(s, u).r));
  }

  lemma {:induction false} HeldStep(s: State, u: Tid, b: nat)
    requires Inv(s) && b !in Locks(s.hash, At(s, u))
    ensures SameChain(s, Run(s, u), b)
  {
    StepFrame(s, u);
    if At(s, u).ReqKey? {
      RekeyedElsewhere(s, u, b);
    }
  }

  /** While t holds bucket b's lock, no other thread's event touches the chain or what its waiters wait for. */
  lemma {:induction false} HeldChain(s: State, e: Event, t: Tid, b: nat)
    requires Inv(s) && b in Locks(s.hash, At(s, t)) && e != Continue(t)
    ensures SameChain(s, Step(s, e), b)
  {
    if e.Continue? {
      assert s.lock[b] == t;
      assert b !in Locks(s.hash, At(s, e.t));
      HeldStep(s, e.t, b);
    } else {
      HeldBegin(s, e, b);
    }
  }

  lemma {:induction false} BeginSame(s: State, e: Event)
    requires !e.Continue? && !e.Wait?
    ensures Step(s, e).q == s.q && Step(s, e).chain == s.chain && Step(s, e).hash == s.hash
  {
  }

  lemma {:induction false} BeginPc(s: State, e: Event, t: Tid)
    requires !e.Continue?
    ensures Step(s, e).place == s.place && (At(Step(s, e), t).Enqueue? ==> At(s, t).Enqueue?)
  {
  }

  lemma {:induction false} HeldBegin(s: State, e: Event, b: nat)
    requires Inv(s) && !e.Continue?
    ensures SameChain(s, Step(s, e), b)
  {
    if e.Wait? {
      if At(s, e.t).Idle? {
        NotSubject(s, e.t);
      }
    } else {
      BeginSame(s, e);
    }
  }
}
