/** The futex protocol of kernel/futex.c as interleaved steps: waiters, wakers, callers of futex_wake_op and requeuers run
    one access at a time, bucket locks are spin locks, and unqueue_me reads lock_ptr without a lock. A run is any sequence of
    events. */
module FutexProtocol {

  import opened Seqs
  import opened Futex

  type Tid = nat

  /** Where a thread's futex_q is; an auxiliary variable, which no step reads. */
  datatype Place =
    | Out                // not handed to the queues
    | On(bucket: nat)    // queued
    | Held(v: Tid)       // taken up by a waker or requeuer
    | Gone               // removed by a waker

  /** struct futex_q with the expected value. Auxiliary: `moved`, it was requeued; `call`, the number of this futex_wait among
      the thread's. */
  datatype Entry = Entry(key: Key, val: int, bits: set<nat>, lockPtr: Option<nat>, moved: bool, call: nat)

  /** The arguments of futex_requeue and futex_wake_op; nr2 is nr_requeue or nr_wake2. */
  datatype Req = Req(key1: Key, key2: Key, nrWake: int, nr2: int, cmp: Option<int>)

  /** A loop that wakes waiters: futex_wake's, or one of the two of futex_wake_op; `more` is op_ret > 0. */
  datatype Loop =
    | WakeLoop(key: Key, bits: set<nat>, n: int)
    | OpLoop(r: Req, second: bool, more: bool)

  /** Who calls wake_futex: such a loop, or futex_requeue with the waiters it has handled. */
  datatype Caller = ByLoop(l: Loop) | ByRequeue(r: Req, done: set<Tid>)

  datatype Pc =
    | Idle
    // futex_wait: queue_lock, the comparison, queue_me, sleep
    | SetLock
    | Lock(b: nat)
    | Check(b: nat)
    | Enqueue(b: nat)
    | Queued(b: nat)
    | Refused(b: nat)
    | Sleep
    // unqueue_me
    | ReadLock
    | Relock(b: nat)
    | Recheck(b: nat)
    | Retry(b: nat)
    | Delete(b: nat)
    | Deleted(b: nat)
    | Returned(ret: int)
    // futex_wake, and the loops of futex_wake_op
    | WakeLock(key: Key, bits: set<nat>, n: int)
    | WakeScan(l: Loop, count: int)
    | WakeUnlock(key: Key)
    // wake_futex: the store of NULL, and the read of uti_futex_resp
    | WakeClear(who: Caller, count: int, x: Tid)
    | WakeResp(who: Caller, count: int, x: Tid)
    // double_lock_hb and double_unlock_hb, for futex_wake_op (op) and futex_requeue
    | DoubleLock1(r: Req, op: bool)
    | DoubleLock2(r: Req, op: bool)
    | DoubleUnlock1(r: Req, retry: bool)
    | DoubleUnlock2(r: Req, retry: bool)
    // futex_wake_op
    | OpApply(r: Req)
    // futex_requeue
    | ReqCheck(r: Req)
    | ReqScan(r: Req, count: int, done: set<Tid>)
    | ReqAdd(r: Req, count: int, done: set<Tid>, x: Tid)
    | ReqPtr(r: Req, count: int, done: set<Tid>, x: Tid)
    | ReqKey(r: Req, count: int, done: set<Tid>, x: Tid)

  datatype State = State(
    hash: Key -> nat,
    mem: map<Key, int>,
    lock: map<nat, Tid>,
    chain: map<nat, seq<Tid>>,
    q: map<Tid, Entry>,
    pc: map<Tid, Pc>,
    place: map<Tid, Place>)

  function At(s: State, t: Tid): Pc {
    if t in s.pc then s.pc[t] else Idle
  }

  function Q(s: State, t: Tid): Entry {
    if t in s.q then s.q[t] else Entry(Key(0, 0, 0), 0, {}, None, false, 0)
  }

  function Chain(s: State, b: nat): seq<Tid> {
    if b in s.chain then s.chain[b] else []
  }

  function PlaceOf(s: State, t: Tid): Place {
    if t in s.place then s.place[t] else Out
  }

  function Mem(s: State, k: Key): int {
    if k in s.mem then s.mem[k] else 0
  }

  function B1(h: Key -> nat, r: Req): nat {
    h(r.key1)
  }

  function B2(h: Key -> nat, r: Req): nat {
    h(r.key2)
  }

  /** double_lock_hb takes the lower bucket first. */
  function Lo(h: Key -> nat, r: Req): nat {
    if B1(h, r) <= B2(h, r) then B1(h, r) else B2(h, r)
  }

  function Hi(h: Key -> nat, r: Req): nat {
    if B1(h, r) <= B2(h, r) then B2(h, r) else B1(h, r)
  }

  const EFAULT: int := 14

  function LoopKey(l: Loop): Key {
    match l
    case WakeLoop(key, _, _) => key
    case OpLoop(r, second, _) => if second then r.key2 else r.key1
  }

  /** futex_wake_op looks at no bitset. */
  function LoopBits(l: Loop): Option<set<nat>> {
    if l.WakeLoop? then Some(l.bits) else None
  }

  function LoopN(l: Loop): int {
    match l
    case WakeLoop(_, _, n) => n
    case OpLoop(r, second, _) => if second then r.nr2 else r.nrWake
  }

  function LoopBucket(h: Key -> nat, l: Loop): nat {
    h(LoopKey(l))
  }

  /** Where the caller goes when the loop is over. */
  function LoopNext(l: Loop): Pc {
    match l
    case WakeLoop(key, _, _) => WakeUnlock(key)
    case OpLoop(r, second, more) => if !second && more then WakeScan(OpLoop(r, true, more), 0) else DoubleUnlock1(r, false)
  }

  /** Where the caller of wake_futex goes on. */
  function AfterWake(who: Caller, count: int): Pc {
    match who
    case ByLoop(l) => if count + 1 >= LoopN(l) then LoopNext(l) else WakeScan(l, count + 1)
    case ByRequeue(r, done) => ReqScan(r, count, done)
  }

  /** The bucket from which the waiter was taken. */
  function CallerBucket(h: Key -> nat, who: Caller): nat {
    match who
    case ByLoop(l) => LoopBucket(h, l)
    case ByRequeue(r, _) => B1(h, r)
  }

  // ---------------------------------------------------------------------------------------------- the steps

  function Go(s: State, t: Tid, p: Pc): State {
    s.(pc := s.pc[t := p])
  }

  function Acquire(s: State, t: Tid, b: nat, p: Pc): State {
    if b in s.lock then s else Go(s.(lock := s.lock[b := t]), t, p)
  }

  function Release(s: State, t: Tid, b: nat, p: Pc): State {
    Go(s.(lock := s.lock - {b}), t, p)
  }

  function SetEntry(s: State, x: Tid, e: Entry): State {
    s.(q := s.q[x := e])
  }

  function SetPlace(s: State, x: Tid, p: Place): State {
    s.(place := s.place[x := p])
  }

  function Add(s: State, b: nat, x: Tid): State {
    s.(chain := s.chain[b := Chain(s, b) + [x]])
  }

  function Del(s: State, b: nat, x: Tid): State {
    s.(chain := s.chain[b := Without(Chain(s, b), x)])
  }

  predicate Match(s: State, x: Tid, key: Key, bits: Option<set<nat>>) {
    Q(s, x).key == key && (bits.Some? ==> Q(s, x).bits * bits.value != {})
  }

  /** The first waiter of c that matches and has not been handled: where the forward scan of the chain stops next. */
  function First(s: State, c: seq<Tid>, key: Key, bits: Option<set<nat>>, done: set<Tid>): (r: Option<Tid>)
    ensures r.Some? ==> r.value in c && Match(s, r.value, key, bits) && r.value !in done
    ensures r.None? ==> forall x :: x in c && Match(s, x, key, bits) ==> x in done
  {
    if c == [] then None
    else if Match(s, c[0], key, bits) && c[0] !in done then Some(c[0])
    else First(s, c[1..], key, bits, done)
  }

  function RunWait(s: State, t: Tid): State {
    var e := Q(s, t);
    match At(s, t)
    case SetLock => Go(SetEntry(s, t, e.(lockPtr := Some(s.hash(e.key)))), t, Lock(s.hash(e.key)))
    case Lock(b) => Acquire(s, t, b, Check(b))
    case Check(b) => Go(s, t, if Mem(s, e.key) == e.val then Enqueue(b) else Refused(b))
    case Enqueue(b) => Go(SetPlace(Add(s, b, t), t, On(b)), t, Queued(b))
    case Queued(b) => Release(s, t, b, Sleep)
    case Refused(b) => Release(s, t, b, Returned(-EAGAIN))
    case Sleep => Go(s, t, ReadLock)
    case _ => s
  }

  function RunUnqueue(s: State, t: Tid): State {
    match At(s, t)
    case ReadLock =>
      var l := Q(s, t).lockPtr;
      if l.Some? then Go(s, t, Relock(l.value)) else Go(SetPlace(s, t, Out), t, Returned(0))
    case Relock(b) => Acquire(s, t, b, Recheck(b))
    case Recheck(b) => Go(s, t, if Q(s, t).lockPtr == Some(b) then Delete(b) else Retry(b))
    case Retry(b) => Release(s, t, b, ReadLock)
    case Delete(b) => Go(SetPlace(Del(s, b, t), t, Out), t, Deleted(b))
    case Deleted(b) => Release(s, t, b, Returned(1))
    case Returned(_) => Go(s, t, Idle)
    case _ => s
  }

  function RunWake(s: State, t: Tid): State {
    match At(s, t)
    case WakeLock(key, bits, n) => Acquire(s, t, s.hash(key), WakeScan(WakeLoop(key, bits, n), 0))
    case WakeScan(l, count) =>
      var b := LoopBucket(s.hash, l);
      var f := First(s, Chain(s, b), LoopKey(l), LoopBits(l), {});
      if f.None? then Go(s, t, LoopNext(l))
      else Go(Del(SetPlace(s, f.value, Held(t)), b, f.value), t, WakeClear(ByLoop(l), count, f.value))
    case WakeClear(who, count, x) => Go(Nulled(s, x), t, WakeResp(who, count, x))
    case WakeResp(who, count, _) => Go(s, t, AfterWake(who, count))
    case WakeUnlock(key) => Release(s, t, s.hash(key), Idle)
    case _ => s
  }

  /** wake_futex stores NULL into lock_ptr. The step after it, at WakeResp, reads uti_futex_resp of the same entry. */
  function Nulled(s: State, x: Tid): State {
    SetPlace(SetEntry(s, x, Q(s, x).(lockPtr := None)), x, Gone)
  }

  /** The first step inside both locks, and the one after both are released. */
  function Inside(r: Req, op: bool): Pc {
    if op then OpApply(r) else ReqCheck(r)
  }

  function Outside(r: Req, retry: bool): Pc {
    if retry then DoubleLock1(r, true) else Idle
  }

  function RunDouble(s: State, t: Tid): State {
    var h := s.hash;
    match At(s, t)
    case DoubleLock1(r, op) => Acquire(s, t, Lo(h, r), if Lo(h, r) == Hi(h, r) then Inside(r, op) else DoubleLock2(r, op))
    case DoubleLock2(r, op) => Acquire(s, t, Hi(h, r), Inside(r, op))
    case DoubleUnlock1(r, retry) => Release(s, t, B1(h, r), if B1(h, r) != B2(h, r) then DoubleUnlock2(r, retry) else Outside(r, retry))
    case DoubleUnlock2(r, retry) => Release(s, t, B2(h, r), Outside(r, retry))
    case _ => s
  }

  /** futex_atomic_op_inuser leaves v in the second word and returns ret: -EFAULT starts over, another error ends the call, and
      a positive result asks for the second loop. Any operation is such a step. */
  function Apply(s: State, t: Tid, v: int, ret: int): State {
    match At(s, t)
    case OpApply(r) =>
      if ret < 0 then Go(s, t, DoubleUnlock1(r, ret == -EFAULT))
      else Go(s.(mem := s.mem[r.key2 := v]), t, WakeScan(OpLoop(r, false, ret > 0), 0))
    case _ => s
  }

  /** The loop test and the choice of the next waiter in futex_requeue. */
  function RunReqScan(s: State, t: Tid, r: Req, count: int, done: set<Tid>): State {
    var b1, b2 := B1(s.hash, r), B2(s.hash, r);
    var f := First(s, Chain(s, b1), r.key1, None, done);
    if count - r.nrWake >= r.nr2 || f.None? then Go(s, t, DoubleUnlock1(r, false))
    else
      var x := f.value;
      var s1 := SetPlace(s, x, Held(t));
      if count + 1 <= r.nrWake then Go(Del(s1, b1, x), t, WakeClear(ByRequeue(r, done + {x}), count + 1, x))
      else if b1 != b2 then Go(Del(s1, b1, x), t, ReqAdd(r, count + 1, done + {x}, x))
      else Go(s1, t, ReqKey(r, count + 1, done + {x}, x))
  }

  function RunRequeue(s: State, t: Tid): State {
    match At(s, t)
    case ReqCheck(r) =>
      Go(s, t, if r.cmp.Some? && Mem(s, r.key1) != r.cmp.value then DoubleUnlock1(r, false) else ReqScan(r, 0, {}))
    case ReqScan(r, count, done) => RunReqScan(s, t, r, count, done)
    case ReqAdd(r, count, done, x) => Go(Add(s, B2(s.hash, r), x), t, ReqPtr(r, count, done, x))
    case ReqPtr(r, count, done, x) => Go(SetEntry(s, x, Q(s, x).(lockPtr := Some(B2(s.hash, r)))), t, ReqKey(r, count, done, x))
    case ReqKey(r, count, done, x) =>
      Go(SetPlace(SetEntry(s, x, Q(s, x).(key := r.key2, moved := true)), x, On(B2(s.hash, r))), t, ReqScan(r, count, done))
    case _ => s
  }

  function Run(s: State, t: Tid): State {
    var p := At(s, t);
    if p.Idle? then s
    else if p.SetLock? || p.Lock? || p.Check? || p.Enqueue? || p.Queued? || p.Refused? || p.Sleep? then RunWait(s, t)
    else if p.ReadLock? || p.Relock? || p.Recheck? || p.Retry? || p.Delete? || p.Deleted? || p.Returned? then RunUnqueue(s, t)
    else if p.WakeLock? || p.WakeScan? || p.WakeClear? || p.WakeResp? || p.WakeUnlock? then RunWake(s, t)
    else if p.DoubleLock1? || p.DoubleLock2? || p.DoubleUnlock1? || p.DoubleUnlock2? then RunDouble(s, t)
    else RunRequeue(s, t)
  }

  datatype Event =
    | Wait(t: Tid, key: Key, val: int, bits: set<nat>)
    | Wake(t: Tid, wkey: Key, n: int, wbits: set<nat>)
    | Requeue(t: Tid, r: Req)
    | WakeOp(t: Tid, r: Req)
    | Operate(t: Tid, v: int, ret: int)
    | Store(k: Key, v: int)
    | Continue(t: Tid)

  /** One event: an idle thread enters a call, user code stores to a futex word, or a thread runs its next step, which for
      futex_wake_op's operation on the word is Operate. */
  function Step(s: State, e: Event): State {
    match e
    case Wait(t, key, val, bits) =>
      if At(s, t).Idle? && bits != {} then Go(SetEntry(s, t, Entry(key, val, bits, None, false, Q(s, t).call + 1)), t, SetLock) else s
    case Wake(t, key, n, bits) => if At(s, t).Idle? && bits != {} then Go(s, t, WakeLock(key, bits, n)) else s
    case Requeue(t, r) => if At(s, t).Idle? then Go(s, t, DoubleLock1(r, false)) else s
    case WakeOp(t, r) => if At(s, t).Idle? then Go(s, t, DoubleLock1(r, true)) else s
    case Operate(t, v, ret) => Apply(s, t, v, ret)
    case Store(k, v) => s.(mem := s.mem[k := v])
    case Continue(t) => Run(s, t)
  }

  function Exec(s: State, es: seq<Event>): State
    decreases |es|
  {
    if es == [] then s else Exec(Step(s, es[0]), es[1..])
  }

  predicate Init(s: State) {
    s.lock == map[] && s.chain == map[] && s.pc == map[] && s.place == map[]
  }

  // ---------------------------------------------------------------------------------------------- the invariant

  function LoopLocks(h: Key -> nat, l: Loop): set<nat> {
    if l.WakeLoop? then {h(l.key)} else {B1(h, l.r), B2(h, l.r)}
  }

  function CallerLocks(h: Key -> nat, who: Caller): set<nat> {
    match who
    case ByLoop(l) => LoopLocks(h, l)
    case ByRequeue(r, _) => {B1(h, r), B2(h, r)}
  }

  /** The bucket locks a thread holds. */
  function Locks(h: Key -> nat, p: Pc): set<nat> {
    match p
    case Check(b) => {b}
    case Enqueue(b) => {b}
    case Queued(b) => {b}
    case Refused(b) => {b}
    case Recheck(b) => {b}
    case Retry(b) => {b}
    case Delete(b) => {b}
    case Deleted(b) => {b}
    case WakeScan(l, _) => LoopLocks(h, l)
    case WakeClear(who, _, _) => CallerLocks(h, who)
    case WakeResp(who, _, _) => CallerLocks(h, who)
    case WakeUnlock(key) => {h(key)}
    case DoubleLock2(r, _) => {Lo(h, r)}
    case DoubleUnlock1(r, _) => {B1(h, r), B2(h, r)}
    case DoubleUnlock2(r, _) => {B2(h, r)}
    case OpApply(r) => {B1(h, r), B2(h, r)}
    case ReqCheck(r) => {B1(h, r), B2(h, r)}
    case ReqScan(r, _, _) => {B1(h, r), B2(h, r)}
    case ReqAdd(r, _, _, _) => {B1(h, r), B2(h, r)}
    case ReqPtr(r, _, _, _) => {B1(h, r), B2(h, r)}
    case ReqKey(r, _, _, _) => {B1(h, r), B2(h, r)}
    case _ => {}
  }

  /** The waiter a thread has taken up. */
  function Victim(p: Pc): Option<Tid> {
    match p
    case WakeClear(_, _, x) => Some(x)
    case ReqAdd(_, _, _, x) => Some(x)
    case ReqPtr(_, _, _, x) => Some(x)
    case ReqKey(_, _, _, x) => Some(x)
    case _ => None
  }

  /** From queue_me to the end of unqueue_me. */
  predicate Waiting(p: Pc) {
    p.Queued? || p.Sleep? || p.ReadLock? || p.Relock? || p.Recheck? || p.Retry? || p.Delete?
  }

  ghost predicate LocksOk(s: State) {
    forall t, b: nat :: b in Locks(s.hash, At(s, t)) <==> (b in s.lock && s.lock[b] == t)
  }

  /** What a handler knows of the waiter it has taken up. */
  predicate VictimOk(h: Key -> nat, p: Pc, e: Entry) {
    match p
    case WakeClear(who, _, _) => e.lockPtr == Some(CallerBucket(h, who)) && h(e.key) == CallerBucket(h, who)
    case ReqAdd(r, _, _, _) => e.lockPtr == Some(B1(h, r)) && e.key == r.key1
    case ReqPtr(r, _, _, _) => e.lockPtr == Some(B1(h, r)) && e.key == r.key1
    case ReqKey(r, _, _, _) => e.lockPtr == Some(B2(h, r)) && e.key == r.key1
    case _ => true
  }

  predicate PlaceOk(s: State, t: Tid) {
    var e := Q(s, t);
    match PlaceOf(s, t)
    case Out => true
    case On(b) => e.lockPtr == Some(b) && s.hash(e.key) == b
    case Held(v) => Victim(At(s, v)) == Some(t)
    case Gone => e.lockPtr == None
  }

  predicate ThreadOk(s: State, t: Tid) {
    var p, e := At(s, t), Q(s, t);
    && (Waiting(p) <==> PlaceOf(s, t) != Out)
    && (p.Lock? || p.Check? || p.Enqueue? ==> e.lockPtr == Some(p.b) && s.hash(e.key) == p.b)
    && (p.Queued? || p.Delete? ==> PlaceOf(s, t) == On(p.b))
    && (p.DoubleLock2? ==> Lo(s.hash, p.r) < Hi(s.hash, p.r))
    && (Victim(p).Some? ==> PlaceOf(s, Victim(p).value) == Held(t) && VictimOk(s.hash, p, Q(s, Victim(p).value)))
    && PlaceOk(s, t)
  }

  ghost predicate ThreadsOk(s: State) {
    forall t :: ThreadOk(s, t)
  }

  /** The chain a waiter is linked into. */
  function Loc(s: State, t: Tid): Option<nat> {
    match PlaceOf(s, t)
    case Out => None
    case Gone => None
    case On(b) => Some(b)
    case Held(v) => LocAt(s.hash, At(s, v))
  }

  function LocAt(h: Key -> nat, p: Pc): Option<nat> {
    match p
    case ReqPtr(r, _, _, _) => Some(B2(h, r))
    case ReqKey(r, _, _, _) => Some(B2(h, r))
    case _ => None
  }

  ghost predicate ChainsOk(s: State) {
    && (forall t, b: nat :: t in Chain(s, b) <==> Loc(s, t) == Some(b))
    && (forall b: nat :: NoDup(Chain(s, b)))
  }

  ghost predicate Inv(s: State) {
    LocksOk(s) && ThreadsOk(s) && ChainsOk(s)
  }

  lemma {:induction false} InitInv(s: State)
    requires Init(s)
    ensures Inv(s)
  {
  }

  lemma {:induction false} LocalThreads(s: State, t: Tid, l: map<nat, Tid>, p: Pc)
    requires ThreadsOk(s) && Victim(At(s, t)).None? && ThreadOk(Go(s.(lock := l), t, p), t)
    ensures ThreadsOk(Go(s.(lock := l), t, p))
  {
    var s' := Go(s.(lock := l), t, p);
    forall u ensures ThreadOk(s', u) {
      assert ThreadOk(s, u);
    }
  }

  /** A step of t that changes its program counter and the locks only. */
  lemma {:induction false} LocalStep(s: State, t: Tid, l: map<nat, Tid>, p: Pc)
    requires Inv(s) && Victim(At(s, t)).None? && Victim(p).None?
    requires LocksOk(Go(s.(lock := l), t, p)) && ThreadOk(Go(s.(lock := l), t, p), t)
    ensures Inv(Go(s.(lock := l), t, p))
  {
    LocalThreads(s, t, l, p);
    var s' := Go(s.(lock := l), t, p);
    forall u ensures Loc(s', u) == Loc(s, u) {
      assert ThreadOk(s, u);
    }
    ChainsSame(s, s');
  }

  lemma {:induction false} GoKeeps(s: State, t: Tid, p: Pc)
    requires Inv(s) && Victim(At(s, t)).None? && Victim(p).None?
    requires Locks(s.hash, p) == Locks(s.hash, At(s, t)) && ThreadOk(Go(s, t, p), t)
    ensures Inv(Go(s, t, p))
  {
    var s' := Go(s, t, p);
    assert s' == Go(s.(lock := s.lock), t, p);
    forall u, b: nat ensures b in Locks(s'.hash, At(s', u)) <==> (b in s'.lock && s'.lock[b] == u) {
      assert Locks(s'.hash, At(s', u)) == Locks(s.hash, At(s, u));
    }
    LocalStep(s, t, s.lock, p);
  }

  lemma {:induction false} AcquireKeeps(s: State, t: Tid, b: nat, p: Pc)
    requires Inv(s) && Victim(At(s, t)).None? && Victim(p).None? && b !in s.lock
    requires Locks(s.hash, p) == Locks(s.hash, At(s, t)) + {b} && ThreadOk(Acquire(s, t, b, p), t)
    ensures Inv(Acquire(s, t, b, p))
  {
    var s' := Acquire(s, t, b, p);
    forall u, c: nat ensures c in Locks(s'.hash, At(s', u)) <==> (c in s'.lock && s'.lock[c] == u) {
      assert c in Locks(s.hash, At(s, u)) <==> (c in s.lock && s.lock[c] == u);
      assert Locks(s'.hash, At(s', u)) == if u == t then Locks(s.hash, At(s, u)) + {b} else Locks(s.hash, At(s, u));
    }
    LocalStep(s, t, s.lock[b := t], p);
  }

  lemma {:induction false} ReleaseLocks(s: State, t: Tid, b: nat, p: Pc)
    requires LocksOk(s) && b in Locks(s.hash, At(s, t)) && Locks(s.hash, p) == Locks(s.hash, At(s, t)) - {b}
    ensures LocksOk(Release(s, t, b, p))
  {
    var s' := Release(s, t, b, p);
    assert b in s.lock && s.lock[b] == t;
    forall u, c: nat ensures c in Locks(s'.hash, At(s', u)) <==> (c in s'.lock && s'.lock[c] == u) {
      assert Locks(s'.hash, At(s', u)) == if u == t then Locks(s.hash, At(s, u)) - {b} else Locks(s.hash, At(s, u));
    }
  }

  lemma {:induction false} ReleaseKeeps(s: State, t: Tid, b: nat, p: Pc)
    requires Inv(s) && Victim(At(s, t)).None? && Victim(p).None? && b in Locks(s.hash, At(s, t))
    requires Locks(s.hash, p) == Locks(s.hash, At(s, t)) - {b} && ThreadOk(Release(s, t, b, p), t)
    ensures Inv(Release(s, t, b, p))
  {
    ReleaseLocks(s, t, b, p);
    LocalStep(s, t, s.lock - {b}, p);
  }

  /** s' differs from s in thread t's program counter, waiter x's entry and place, and the chains only. */
  ghost predicate Near(s: State, s': State, t: Tid, x: Tid) {
    && s'.hash == s.hash && s'.lock == s.lock
    && (forall u :: u != t ==> At(s', u) == At(s, u))
    && (forall u :: u != x ==> Q(s', u) == Q(s, u) && PlaceOf(s', u) == PlaceOf(s, u))
  }

  lemma {:induction false} NearLocks(s: State, s': State, t: Tid, x: Tid)
    requires LocksOk(s) && Near(s, s', t, x) && Locks(s.hash, At(s', t)) == Locks(s.hash, At(s, t))
    ensures LocksOk(s')
  {
    forall u, b: nat ensures b in Locks(s'.hash, At(s', u)) <==> (b in s'.lock && s'.lock[b] == u) {
      assert Locks(s'.hash, At(s', u)) == Locks(s.hash, At(s, u));
    }
  }

  lemma {:induction false} NearThreads(s: State, s': State, t: Tid, x: Tid)
    requires ThreadsOk(s) && Near(s, s', t, x) && ThreadOk(s', t) && ThreadOk(s', x)
    requires Victim(At(s, t)).None? || Victim(At(s, t)) == Some(x)
    requires forall u :: u != t ==> PlaceOf(s, x) != Held(u)
    ensures ThreadsOk(s')
  {
    forall u ensures ThreadOk(s', u) {
      assert ThreadOk(s, u);
    }
  }

  lemma {:induction false} NearLocs(s: State, s': State, t: Tid, x: Tid)
    requires ThreadsOk(s) && Near(s, s', t, x)
    requires Victim(At(s, t)).None? || Victim(At(s, t)) == Some(x)
    ensures forall u :: u != x ==> Loc(s', u) == Loc(s, u)
  {
    forall u | u != x ensures Loc(s', u) == Loc(s, u) {
      assert ThreadOk(s, u);
    }
  }

  /** A step of t on waiter x, which no other thread has taken up. */
  lemma {:induction false} EntryStep(s: State, s': State, t: Tid, x: Tid)
    requires Inv(s) && Near(s, s', t, x)
    requires Locks(s.hash, At(s', t)) == Locks(s.hash, At(s, t))
    requires Victim(At(s, t)).None? || Victim(At(s, t)) == Some(x)
    requires forall u :: u != t ==> PlaceOf(s, x) != Held(u)
    requires ThreadOk(s', t) && ThreadOk(s', x)
    ensures LocksOk(s') && ThreadsOk(s')
    ensures forall u :: u != x ==> Loc(s', u) == Loc(s, u)
  {
    NearLocks(s, s', t, x);
    NearThreads(s, s', t, x);
    NearLocs(s, s', t, x);
  }

  lemma {:induction false} ChainsSame(s: State, s': State)
    requires ChainsOk(s) && s'.chain == s.chain && forall u :: Loc(s', u) == Loc(s, u)
    ensures ChainsOk(s')
  {
    assert forall b: nat :: Chain(s', b) == Chain(s, b);
  }

  lemma {:induction false} ChainsAdd(s: State, s': State, b: nat, x: Tid)
    requires ChainsOk(s) && s'.chain == Add(s, b, x).chain
    requires Loc(s, x) == None && Loc(s', x) == Some(b) && forall u :: u != x ==> Loc(s', u) == Loc(s, u)
    ensures ChainsOk(s')
  {
    assert x !in Chain(s, b);
    NoDupAppend(Chain(s, b), [x]);
    assert Chain(s', b) == Chain(s, b) + [x] && forall c: nat :: c != b ==> Chain(s', c) == Chain(s, c);
  }

  lemma {:induction false} ChainsDel(s: State, s': State, b: nat, x: Tid)
    requires ChainsOk(s) && s'.chain == Del(s, b, x).chain
    requires Loc(s, x) == Some(b) && Loc(s', x) == None && forall u :: u != x ==> Loc(s', u) == Loc(s, u)
    ensures ChainsOk(s')
  {
    WithoutIn(Chain(s, b), x);
    assert Chain(s', b) == Without(Chain(s, b), x) && forall c: nat :: c != b ==> Chain(s', c) == Chain(s, c);
  }

  /** While a waiter is taken up, its handler holds the lock its pointer names and the lock of the chain it is on. */
  lemma {:induction false} HandlerLocks(s: State, x: Tid, b: nat)
    requires Inv(s) && PlaceOf(s, x).Held?
    ensures Victim(At(s, PlaceOf(s, x).v)) == Some(x) && Q(s, x).lockPtr.Some?
    ensures Loc(s, x) == Some(b) || Q(s, x).lockPtr == Some(b) || s.hash(Q(s, x).key) == b ==> b in s.lock && s.lock[b] == PlaceOf(s, x).v
  {
    var v := PlaceOf(s, x).v;
    assert ThreadOk(s, x) && ThreadOk(s, v);
    assert b in Locks(s.hash, At(s, v)) ==> b in s.lock && s.lock[b] == v;
  }

  /** The re-check of unqueue_me: under the lock that lock_ptr names, the waiter is on that bucket's chain. */
  lemma {:induction false} PtrUnderLock(s: State, t: Tid, b: nat, x: Tid)
    requires Inv(s) && b in Locks(s.hash, At(s, t)) && Victim(At(s, t)).None?
    requires PlaceOf(s, x) != Out && (Q(s, x).lockPtr == Some(b) || x in Chain(s, b))
    ensures PlaceOf(s, x) == On(b) && Q(s, x).lockPtr == Some(b) && s.hash(Q(s, x).key) == b
  {
    assert ThreadOk(s, x);
    assert s.lock[b] == t;
    assert x in Chain(s, b) ==> Loc(s, x) == Some(b);
    if PlaceOf(s, x).Held? {
      HandlerLocks(s, x, b);
    }
  }

  /** A waker or requeuer that holds bucket b's lock finds every waiter of the chain queued and off the lock. */
  lemma {:induction false} ChainUnderLock(s: State, t: Tid, b: nat, x: Tid)
    requires Inv(s) && b in Locks(s.hash, At(s, t)) && Victim(At(s, t)).None? && !Waiting(At(s, t)) && x in Chain(s, b)
    ensures PlaceOf(s, x) == On(b) && Q(s, x).lockPtr == Some(b) && s.hash(Q(s, x).key) == b
    ensures x != t && Waiting(At(s, x)) && !At(s, x).Queued? && !At(s, x).Delete?
  {
    assert ThreadOk(s, x) && ThreadOk(s, t);
    assert Loc(s, x) == Some(b);
    PtrUnderLock(s, t, b, x);
    assert At(s, x).Queued? || At(s, x).Delete? ==> b in Locks(s.hash, At(s, x));
    assert s.lock[b] == t;
  }

  // ---------------------------------------------------------------------------------------------- every step keeps it

  lemma {:induction false} SetLockKeeps(s: State, t: Tid)
    requires Inv(s) && At(s, t).SetLock?
    ensures Inv(RunWait(s, t))
  {
    var s' := RunWait(s, t);
    assert ThreadOk(s, t);
    EntryStep(s, s', t, t);
    ChainsSame(s, s');
  }

  lemma {:induction false} EnqueueKeeps(s: State, t: Tid)
    requires Inv(s) && At(s, t).Enqueue?
    ensures Inv(RunWait(s, t))
  {
    var s' := RunWait(s, t);
    assert ThreadOk(s, t);
    EntryStep(s, s', t, t);
    ChainsAdd(s, s', At(s, t).b, t);
  }

  lemma {:induction false} LockKeeps(s: State, t: Tid)
    requires Inv(s) && At(s, t).Lock?
    ensures Inv(RunWait(s, t))
  {
    assert ThreadOk(s, t);
    if At(s, t).b !in s.lock {
      AcquireKeeps(s, t, At(s, t).b, Check(At(s, t).b));
    }
  }

  lemma {:induction false} CheckKeeps(s: State, t: Tid)
    requires Inv(s) && At(s, t).Check?
    ensures Inv(RunWait(s, t))
  {
    assert ThreadOk(s, t);
    GoKeeps(s, t, if Mem(s, Q(s, t).key) == Q(s, t).val then Enqueue(At(s, t).b) else Refused(At(s, t).b));
  }

  lemma {:induction false} WaitUnlockKeeps(s: State, t: Tid)
    requires Inv(s) && (At(s, t).Queued? || At(s, t).Refused?)
    ensures Inv(RunWait(s, t))
  {
    assert ThreadOk(s, t);
    ReleaseKeeps(s, t, At(s, t).b, if At(s, t).Queued? then Sleep else Returned(-EAGAIN));
  }

  lemma {:induction false} SleepKeeps(s: State, t: Tid)
    requires Inv(s) && At(s, t).Sleep?
    ensures Inv(RunWait(s, t))
  {
    assert ThreadOk(s, t);
    GoKeeps(s, t, ReadLock);
  }

  lemma {:induction false} WaitKeeps(s: State, t: Tid)
    requires Inv(s)
    ensures Inv(RunWait(s, t))
  {
    var p := At(s, t);
    if p.SetLock? {
      SetLockKeeps(s, t);
    } else if p.Lock? {
      LockKeeps(s, t);
    } else if p.Check? {
      CheckKeeps(s, t);
    } else if p.Enqueue? {
      EnqueueKeeps(s, t);
    } else if p.Queued? || p.Refused? {
      WaitUnlockKeeps(s, t);
    } else if p.Sleep? {
      SleepKeeps(s, t);
    }
  }

  lemma {:induction false} ReadNullKeeps(s: State, t: Tid)
    requires Inv(s) && At(s, t).ReadLock? && Q(s, t).lockPtr.None?
    ensures Inv(RunUnqueue(s, t))
  {
    var s' := RunUnqueue(s, t);
    assert ThreadOk(s, t);
    NullMeansGone(s, t);
    EntryStep(s, s', t, t);
    ChainsSame(s, s');
  }

  lemma {:induction false} ReadLockKeeps(s: State, t: Tid)
    requires Inv(s) && At(s, t).ReadLock?
    ensures Inv(RunUnqueue(s, t))
  {
    assert ThreadOk(s, t);
    if Q(s, t).lockPtr.Some? {
      GoKeeps(s, t, Relock(Q(s, t).lockPtr.value));
    } else {
      ReadNullKeeps(s, t);
    }
  }

  lemma {:induction false} RecheckKeeps(s: State, t: Tid)
    requires Inv(s) && At(s, t).Recheck?
    ensures Inv(RunUnqueue(s, t))
  {
    var b := At(s, t).b;
    assert ThreadOk(s, t);
    if Q(s, t).lockPtr == Some(b) {
      PtrUnderLock(s, t, b, t);
    }
    GoKeeps(s, t, if Q(s, t).lockPtr == Some(b) then Delete(b) else Retry(b));
  }

  lemma {:induction false} DeleteKeeps(s: State, t: Tid)
    requires Inv(s) && At(s, t).Delete?
    ensures Inv(RunUnqueue(s, t))
  {
    var s' := RunUnqueue(s, t);
    assert ThreadOk(s, t);
    EntryStep(s, s', t, t);
    ChainsDel(s, s', At(s, t).b, t);
  }

  lemma {:induction false} RelockKeeps(s: State, t: Tid)
    requires Inv(s) && At(s, t).Relock?
    ensures Inv(RunUnqueue(s, t))
  {
    assert ThreadOk(s, t);
    if At(s, t).b !in s.lock {
      AcquireKeeps(s, t, At(s, t).b, Recheck(At(s, t).b));
    }
  }

  lemma {:induction false} UnqueueUnlockKeeps(s: State, t: Tid)
    requires Inv(s) && (At(s, t).Retry? || At(s, t).Deleted?)
    ensures Inv(RunUnqueue(s, t))
  {
    assert ThreadOk(s, t);
    ReleaseKeeps(s, t, At(s, t).b, if At(s, t).Retry? then ReadLock else Returned(1));
  }

  lemma {:induction false} ReturnKeeps(s: State, t: Tid)
    requires Inv(s) && At(s, t).Returned?
    ensures Inv(RunUnqueue(s, t))
  {
    assert ThreadOk(s, t);
    GoKeeps(s, t, Idle);
  }

  lemma {:induction false} UnqueueKeeps(s: State, t: Tid)
    requires Inv(s)
    ensures Inv(RunUnqueue(s, t))
  {
    var p := At(s, t);
    if p.ReadLock? {
      ReadLockKeeps(s, t);
    } else if p.Relock? {
      RelockKeeps(s, t);
    } else if p.Recheck? {
      RecheckKeeps(s, t);
    } else if p.Retry? || p.Deleted? {
      UnqueueUnlockKeeps(s, t);
    } else if p.Delete? {
      DeleteKeeps(s, t);
    } else if p.Returned? {
      ReturnKeeps(s, t);
    }
  }

  /** A waiter that reads a null lock_ptr has been removed by a waker. */
  lemma {:induction false} NullMeansGone(s: State, t: Tid)
    requires Inv(s) && Waiting(At(s, t)) && Q(s, t).lockPtr.None?
    ensures PlaceOf(s, t) == Gone
  {
    assert ThreadOk(s, t);
    assert PlaceOf(s, t).Held? ==> ThreadOk(s, PlaceOf(s, t).v);
  }

  /** A waker or requeuer takes waiter x up. */
  lemma {:induction false} TakeUp(s: State, s': State, t: Tid, b: nat, x: Tid)
    requires Inv(s) && b in Locks(s.hash, At(s, t)) && Victim(At(s, t)).None? && !Waiting(At(s, t)) && x in Chain(s, b)
    requires Near(s, s', t, x) && Q(s', x) == Q(s, x) && PlaceOf(s', x) == Held(t)
    requires Victim(At(s', t)) == Some(x) && Locks(s.hash, At(s', t)) == Locks(s.hash, At(s, t))
    requires Q(s, x).lockPtr == Some(b) && s.hash(Q(s, x).key) == b ==> VictimOk(s.hash, At(s', t), Q(s, x))
    ensures LocksOk(s') && ThreadsOk(s') && Loc(s, x) == Some(b) && Loc(s', x) == LocAt(s.hash, At(s', t))
    ensures forall u :: u != x ==> Loc(s', u) == Loc(s, u)
  {
    ChainUnderLock(s, t, b, x);
    assert ThreadOk(s, x) && ThreadOk(s, t);
    assert ThreadOk(s', x);
    assert ThreadOk(s', t);
    EntryStep(s, s', t, x);
  }

  lemma {:induction false} TakeOff(s: State, t: Tid, b: nat, x: Tid, p: Pc)
    requires Inv(s) && b in Locks(s.hash, At(s, t)) && Victim(At(s, t)).None? && !Waiting(At(s, t)) && x in Chain(s, b)
    requires Victim(p) == Some(x) && Locks(s.hash, p) == Locks(s.hash, At(s, t)) && LocAt(s.hash, p).None?
    requires Q(s, x).lockPtr == Some(b) && s.hash(Q(s, x).key) == b ==> VictimOk(s.hash, p, Q(s, x))
    ensures Inv(Go(Del(SetPlace(s, x, Held(t)), b, x), t, p))
  {
    var s' := Go(Del(SetPlace(s, x, Held(t)), b, x), t, p);
    TakeUp(s, s', t, b, x);
    ChainsDel(s, s', b, x);
  }

  /** Whatever the loop, its end leaves the locks as they are and no waiter taken up. */
  lemma {:induction false} LoopNextKeeps(s: State, t: Tid, l: Loop)
    requires Inv(s) && At(s, t).WakeScan? && At(s, t).l == l
    ensures Inv(Go(s, t, LoopNext(l)))
  {
    assert ThreadOk(s, t);
    GoKeeps(s, t, LoopNext(l));
  }

  lemma {:induction false} WakePickKeeps(s: State, t: Tid)
    requires Inv(s) && At(s, t).WakeScan?
    ensures Inv(RunWake(s, t))
  {
    var l := At(s, t).l;
    var f := First(s, Chain(s, LoopBucket(s.hash, l)), LoopKey(l), LoopBits(l), {});
    if f.None? {
      LoopNextKeeps(s, t, l);
    } else {
      assert ThreadOk(s, t);
      TakeOff(s, t, LoopBucket(s.hash, l), f.value, WakeClear(ByLoop(l), At(s, t).count, f.value));
    }
  }

  lemma {:induction false} WakeClearKeeps(s: State, t: Tid)
    requires Inv(s) && At(s, t).WakeClear?
    ensures Inv(RunWake(s, t))
  {
    var x, s' := At(s, t).x, RunWake(s, t);
    assert ThreadOk(s, t) && ThreadOk(s, x);
    EntryStep(s, s', t, x);
    ChainsSame(s, s');
  }

  lemma {:induction false} WakeRespKeeps(s: State, t: Tid)
    requires Inv(s) && At(s, t).WakeResp?
    ensures Inv(RunWake(s, t))
  {
    assert ThreadOk(s, t);
    GoKeeps(s, t, AfterWake(At(s, t).who, At(s, t).count));
  }

  lemma {:induction false} WakeLocksKeep(s: State, t: Tid)
    requires Inv(s) && (At(s, t).WakeLock? || At(s, t).WakeUnlock?)
    ensures Inv(RunWake(s, t))
  {
    assert ThreadOk(s, t);
    var p := At(s, t);
    if p.WakeUnlock? {
      ReleaseKeeps(s, t, s.hash(p.key), Idle);
    } else if s.hash(p.key) !in s.lock {
      AcquireKeeps(s, t, s.hash(p.key), WakeScan(WakeLoop(p.key, p.bits, p.n), 0));
    }
  }

  lemma {:induction false} WakeKeepsInv(s: State, t: Tid)
    requires Inv(s)
    ensures Inv(RunWake(s, t))
  {
    var p := At(s, t);
    if p.WakeLock? || p.WakeUnlock? {
      WakeLocksKeep(s, t);
    } else if p.WakeScan? {
      WakePickKeeps(s, t);
    } else if p.WakeClear? {
      WakeClearKeeps(s, t);
    } else if p.WakeResp? {
      WakeRespKeeps(s, t);
    }
  }

  lemma {:induction false} DoubleLock1Keeps(s: State, t: Tid, r: Req, op: bool)
    requires Inv(s) && At(s, t) == DoubleLock1(r, op)
    ensures Inv(Acquire(s, t, Lo(s.hash, r), if Lo(s.hash, r) == Hi(s.hash, r) then Inside(r, op) else DoubleLock2(r, op)))
  {
    assert ThreadOk(s, t);
    var h := s.hash;
    if Lo(h, r) !in s.lock {
      AcquireKeeps(s, t, Lo(h, r), if Lo(h, r) == Hi(h, r) then Inside(r, op) else DoubleLock2(r, op));
    }
  }

  lemma {:induction false} DoubleLock2Keeps(s: State, t: Tid, r: Req, op: bool)
    requires Inv(s) && At(s, t) == DoubleLock2(r, op)
    ensures Inv(Acquire(s, t, Hi(s.hash, r), Inside(r, op)))
  {
    assert ThreadOk(s, t);
    if Hi(s.hash, r) !in s.lock {
      AcquireKeeps(s, t, Hi(s.hash, r), Inside(r, op));
    }
  }

  lemma {:induction false} DoubleUnlock1Keeps(s: State, t: Tid, r: Req, retry: bool)
    requires Inv(s) && At(s, t) == DoubleUnlock1(r, retry)
    ensures Inv(Release(s, t, B1(s.hash, r), if B1(s.hash, r) != B2(s.hash, r) then DoubleUnlock2(r, retry) else Outside(r, retry)))
  {
    assert ThreadOk(s, t);
    var h := s.hash;
    ReleaseKeeps(s, t, B1(h, r), if B1(h, r) != B2(h, r) then DoubleUnlock2(r, retry) else Outside(r, retry));
  }

  lemma {:induction false} DoubleUnlock2Keeps(s: State, t: Tid, r: Req, retry: bool)
    requires Inv(s) && At(s, t) == DoubleUnlock2(r, retry)
    ensures Inv(Release(s, t, B2(s.hash, r), Outside(r, retry)))
  {
    assert ThreadOk(s, t);
    ReleaseKeeps(s, t, B2(s.hash, r), Outside(r, retry));
  }

  lemma {:induction false} DoubleKeepsInv(s: State, t: Tid)
    requires Inv(s)
    ensures Inv(RunDouble(s, t))
  {
    match At(s, t)
    case DoubleLock1(r, op) => DoubleLock1Keeps(s, t, r, op);
    case DoubleLock2(r, op) => DoubleLock2Keeps(s, t, r, op);
    case DoubleUnlock1(r, retry) => DoubleUnlock1Keeps(s, t, r, retry);
    case DoubleUnlock2(r, retry) => DoubleUnlock2Keeps(s, t, r, retry);
    case _ =>
  }

  lemma {:induction false} ApplyKeeps(s: State, t: Tid, v: int, ret: int)
    requires Inv(s)
    ensures Inv(Apply(s, t, v, ret))
  {
    assert ThreadOk(s, t);
    if At(s, t).OpApply? {
      var r := At(s, t).r;
      if ret < 0 {
        GoKeeps(s, t, DoubleUnlock1(r, ret == -EFAULT));
      } else {
        StoreKeeps(s, r.key2, v);
        var s1 := s.(mem := s.mem[r.key2 := v]);
        assert ThreadOk(s1, t);
        GoKeeps(s1, t, WakeScan(OpLoop(r, false, ret > 0), 0));
      }
    }
  }

  lemma {:induction false} TakeStay(s: State, t: Tid, r: Req, count: int, done: set<Tid>, x: Tid)
    requires Inv(s) && At(s, t).ReqScan? && At(s, t).r == r && B1(s.hash, r) == B2(s.hash, r)
    requires x in Chain(s, B1(s.hash, r)) && Match(s, x, r.key1, None)
    ensures Inv(Go(SetPlace(s, x, Held(t)), t, ReqKey(r, count, done, x)))
  {
    var s' := Go(SetPlace(s, x, Held(t)), t, ReqKey(r, count, done, x));
    TakeUp(s, s', t, B1(s.hash, r), x);
    ChainsSame(s, s');
  }

  lemma {:induction false} ReqTakeKeeps(s: State, t: Tid, r: Req, count: int, done: set<Tid>, x: Tid, wakes: bool)
    requires Inv(s) && At(s, t).ReqScan? && At(s, t).r == r && x in Chain(s, B1(s.hash, r)) && Match(s, x, r.key1, None)
    ensures Inv(Go(Del(SetPlace(s, x, Held(t)), B1(s.hash, r), x), t, if wakes then WakeClear(ByRequeue(r, done), count, x) else ReqAdd(r, count, done, x)))
  {
    assert ThreadOk(s, t);
    TakeOff(s, t, B1(s.hash, r), x, if wakes then WakeClear(ByRequeue(r, done), count, x) else ReqAdd(r, count, done, x));
  }

  lemma {:induction false} ReqPickKeeps(s: State, t: Tid, r: Req, count: int, done: set<Tid>)
    requires Inv(s) && At(s, t) == ReqScan(r, count, done)
    ensures Inv(RunReqScan(s, t, r, count, done))
  {
    var f := First(s, Chain(s, B1(s.hash, r)), r.key1, None, done);
    if count - r.nrWake >= r.nr2 || f.None? {
      assert ThreadOk(s, t);
      GoKeeps(s, t, DoubleUnlock1(r, false));
    } else if count + 1 <= r.nrWake || B1(s.hash, r) != B2(s.hash, r) {
      ReqTakeKeeps(s, t, r, count + 1, done + {f.value}, f.value, count + 1 <= r.nrWake);
    } else {
      TakeStay(s, t, r, count + 1, done + {f.value}, f.value);
    }
  }

  lemma {:induction false} ReqAddKeeps(s: State, t: Tid, r: Req, count: int, done: set<Tid>, x: Tid)
    requires Inv(s) && At(s, t) == ReqAdd(r, count, done, x)
    ensures Inv(Go(Add(s, B2(s.hash, r), x), t, ReqPtr(r, count, done, x)))
  {
    var s' := Go(Add(s, B2(s.hash, r), x), t, ReqPtr(r, count, done, x));
    assert ThreadOk(s, t) && ThreadOk(s, x);
    EntryStep(s, s', t, x);
    ChainsAdd(s, s', B2(s.hash, r), x);
  }

  lemma {:induction false} ReqPtrKeeps(s: State, t: Tid, r: Req, count: int, done: set<Tid>, x: Tid)
    requires Inv(s) && At(s, t) == ReqPtr(r, count, done, x)
    ensures Inv(Go(SetEntry(s, x, Q(s, x).(lockPtr := Some(B2(s.hash, r)))), t, ReqKey(r, count, done, x)))
  {
    var s' := Go(SetEntry(s, x, Q(s, x).(lockPtr := Some(B2(s.hash, r)))), t, ReqKey(r, count, done, x));
    PtrThreads(s, s', t, r, count, done, x);
    EntryStep(s, s', t, x);
    ChainsSame(s, s');
  }

  lemma {:induction false} PtrWaiter(s: State, s': State, t: Tid, x: Tid)
    requires ThreadOk(s, x) && PlaceOf(s, x) == Held(t) && x != t && Victim(At(s, x)).None?
    requires At(s', x) == At(s, x) && PlaceOf(s', x) == PlaceOf(s, x) && Victim(At(s', t)) == Some(x) && s'.hash == s.hash
    requires Waiting(At(s, x)) && !At(s, x).Queued? && !At(s, x).Delete?
    ensures ThreadOk(s', x)
  {
  }

  lemma {:induction false} PtrThreads(s: State, s': State, t: Tid, r: Req, count: int, done: set<Tid>, x: Tid)
    requires Inv(s) && At(s, t) == ReqPtr(r, count, done, x)
    requires s' == Go(SetEntry(s, x, Q(s, x).(lockPtr := Some(B2(s.hash, r)))), t, ReqKey(r, count, done, x))
    ensures Near(s, s', t, x) && ThreadOk(s', t) && ThreadOk(s', x) && PlaceOf(s, x) == Held(t) && Loc(s', x) == Loc(s, x)
  {
    assert ThreadOk(s, t) && ThreadOk(s, x);
    PtrWaiter(s, s', t, x);
  }

  lemma {:induction false} ReqKeyKeeps(s: State, t: Tid, r: Req, count: int, done: set<Tid>, x: Tid)
    requires Inv(s) && At(s, t) == ReqKey(r, count, done, x)
    ensures Inv(Go(SetPlace(SetEntry(s, x, Q(s, x).(key := r.key2, moved := true)), x, On(B2(s.hash, r))), t, ReqScan(r, count, done)))
  {
    var s' := Go(SetPlace(SetEntry(s, x, Q(s, x).(key := r.key2, moved := true)), x, On(B2(s.hash, r))), t, ReqScan(r, count, done));
    KeyThreads(s, s', t, r, count, done, x);
    EntryStep(s, s', t, x);
    ChainsSame(s, s');
  }

  lemma {:induction false} KeyThreads(s: State, s': State, t: Tid, r: Req, count: int, done: set<Tid>, x: Tid)
    requires Inv(s) && At(s, t) == ReqKey(r, count, done, x)
    requires s' == Go(SetPlace(SetEntry(s, x, Q(s, x).(key := r.key2, moved := true)), x, On(B2(s.hash, r))), t, ReqScan(r, count, done))
    ensures Near(s, s', t, x) && ThreadOk(s', t) && ThreadOk(s', x) && PlaceOf(s, x) == Held(t) && Loc(s', x) == Loc(s, x)
  {
    assert ThreadOk(s, t) && ThreadOk(s, x);
  }

  lemma {:induction false} ReqCheckKeeps(s: State, t: Tid)
    requires Inv(s) && At(s, t).ReqCheck?
    ensures Inv(RunRequeue(s, t))
  {
    assert ThreadOk(s, t);
    var r := At(s, t).r;
    GoKeeps(s, t, if r.cmp.Some? && Mem(s, r.key1) != r.cmp.value then DoubleUnlock1(r, false) else ReqScan(r, 0, {}));
  }

  lemma {:induction false} RequeueKeepsInv(s: State, t: Tid)
    requires Inv(s)
    ensures Inv(RunRequeue(s, t))
  {
    match At(s, t)
    case ReqCheck(_) => ReqCheckKeeps(s, t);
    case ReqScan(r, count, done) => ReqPickKeeps(s, t, r, count, done);
    case ReqAdd(r, count, done, x) => ReqAddKeeps(s, t, r, count, done, x);
    case ReqPtr(r, count, done, x) => ReqPtrKeeps(s, t, r, count, done, x);
    case ReqKey(r, count, done, x) => ReqKeyKeeps(s, t, r, count, done, x);
    case _ =>
  }

  /** A thread entering futex_wait. */
  lemma {:induction false} BeginKeeps(s: State, t: Tid, key: Key, val: int, bits: set<nat>)
    requires Inv(s) && At(s, t).Idle? && bits != {}
    ensures Inv(Step(s, Wait(t, key, val, bits)))
  {
    var s' := Step(s, Wait(t, key, val, bits));
    assert ThreadOk(s, t);
    EntryStep(s, s', t, t);
    ChainsSame(s, s');
  }

  lemma {:induction false} StoreKeeps(s: State, k: Key, v: int)
    requires Inv(s)
    ensures Inv(s.(mem := s.mem[k := v]))
  {
    var s' := s.(mem := s.mem[k := v]);
    assert forall u :: Loc(s', u) == Loc(s, u);
    forall u, b: nat ensures b in Locks(s'.hash, At(s', u)) <==> (b in s'.lock && s'.lock[b] == u) {
      assert Locks(s'.hash, At(s', u)) == Locks(s.hash, At(s, u));
    }
    forall u ensures ThreadOk(s', u) {
      assert ThreadOk(s, u);
    }
    ChainsSame(s, s');
  }

  /** A thread entering a call of another kind. */
  lemma {:induction false} EnterKeeps(s: State, t: Tid, p: Pc)
    requires Inv(s) && At(s, t).Idle? && (p.WakeLock? || p.DoubleLock1?)
    ensures Inv(Go(s, t, p))
  {
    assert ThreadOk(s, t);
    GoKeeps(s, t, p);
  }

  lemma {:induction false} RunKeeps(s: State, t: Tid)
    requires Inv(s)
    ensures Inv(Run(s, t))
  {
    WaitKeeps(s, t);
    UnqueueKeeps(s, t);
    WakeKeepsInv(s, t);
    DoubleKeepsInv(s, t);
    RequeueKeepsInv(s, t);
  }

  lemma {:induction false} StepKeeps(s: State, e: Event)
    requires Inv(s)
    ensures Inv(Step(s, e))
  {
    match e
    case Wait(t, key, val, bits) =>
      if At(s, t).Idle? && bits != {} {
        BeginKeeps(s, t, key, val, bits);
      }
    case Wake(t, key, n, bits) =>
      if At(s, t).Idle? && bits != {} {
        EnterKeeps(s, t, WakeLock(key, bits, n));
      }
    case Requeue(t, r) =>
      if At(s, t).Idle? {
        EnterKeeps(s, t, DoubleLock1(r, false));
      }
    case WakeOp(t, r) =>
      if At(s, t).Idle? {
        EnterKeeps(s, t, DoubleLock1(r, true));
      }
    case Operate(t, v, ret) => ApplyKeeps(s, t, v, ret);
    case Store(k, v) => StoreKeeps(s, k, v);
    case Continue(t) => RunKeeps(s, t);
  }
}
