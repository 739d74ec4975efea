/** What the wake-up loops of futex_wake and futex_wake_op do in every interleaving, and that no wake-up is lost. */
module FutexWake {

  import opened Seqs
  import opened Futex
  import opened FutexProtocol
  import opened FutexSteps

  // ---------------------------------------------------------------------------------------------- what a loop covers

  /** The entries of the waiters on bucket b's chain. */
  function Entries(s: State, b: nat): Table {
    map x | x in Chain(s, b) :: FutexQ(Q(s, x).key, Q(s, x).bits, Q(s, x).lockPtr)
  }

  /** The matching waiters on a loop's chain, in order. */
  function LoopHits(s: State, l: Loop): seq<Tid> {
    Hits(Entries(s, LoopBucket(s.hash, l)), Chain(s, LoopBucket(s.hash, l)), LoopKey(l), LoopBits(l))
  }

  /** How many waiters the loop is to wake: the count is compared after a wake-up, so at least one. */
  function ToWake(l: Loop): nat {
    Max(LoopN(l), 1)
  }

  /** The waiters of c look the same to a search in table q and in state s. */
  ghost predicate SameView(q: Table, s: State, c: seq<Tid>) {
    forall x :: x in c ==> x in q && q[x].key == Q(s, x).key && q[x].bits == Q(s, x).bits
  }

  /** The scan of the protocol stops at the first of the matches. */
  lemma {:induction false} FirstHit(q: Table, s: State, c: seq<Tid>, key: Key, bits: Option<set<nat>>)
    requires SameView(q, s, c)
    ensures var h := Hits(q, c, key, bits); First(s, c, key, bits, {}) == if h == [] then None else Some(h[0])
    decreases |c|
  {
    if c != [] {
      FirstHit(q, s, c[1..], key, bits);
    }
  }

  /** Taking the next match off leaves one match fewer. */
  lemma {:induction false} RestNext(q: Table, c: seq<Tid>, key: Key, bits: Option<set<nat>>, n: nat)
    requires NoDup(c) && n < |Hits(q, c, key, bits)|
    ensures Without(Rest(q, c, key, bits, n), Hits(q, c, key, bits)[n]) == Rest(q, c, key, bits, n + 1)
    decreases |c|
  {
    var h := Hits(q, c, key, bits);
    HitsIn(q, c[1..], key, bits);
    if Hit(q, c[0], key, bits) {
      if n > 0 {
        RestNext(q, c[1..], key, bits, n - 1);
      } else {
        RestZero(q, c, key, bits);
        RestZero(q, c[1..], key, bits);
      }
    } else {
      RestNext(q, c[1..], key, bits, n);
      assert h == Hits(q, c[1..], key, bits);
      var r := Rest(q, c[1..], key, bits, n);
      assert c[0] != h[n] && ([c[0]] + r)[1..] == r;
    }
  }

  predicate InLoop(p: Pc, l: Loop) {
    (p.WakeScan? && p.l == l) || ((p.WakeClear? || p.WakeResp?) && p.who == ByLoop(l))
  }

  /** A loop as it was begun: its bucket, the entries of the waiters there, and the chain. */
  datatype Job = Job(l: Loop, b: nat, q: Table, c: seq<Tid>)

  function JobOf(s: State, l: Loop): Job {
    var b := LoopBucket(s.hash, l);
    Job(l, b, Entries(s, b), Chain(s, b))
  }

  function JobHits(j: Job): seq<Tid> {
    Hits(j.q, j.c, LoopKey(j.l), LoopBits(j.l))
  }

  /** The chain without its first n matches. */
  function JobRest(j: Job, n: nat): seq<Tid> {
    Rest(j.q, j.c, LoopKey(j.l), LoopBits(j.l), n)
  }

  /** The loop's caller stands at p, it has cleared the waiters `got`, and c is the chain. */
  ghost predicate Progress(j: Job, p: Pc, got: seq<Tid>, c: seq<Tid>) {
    var h := JobHits(j);
    if p == LoopNext(j.l) then got == h[..Min(ToWake(j.l), |h|)] && c == JobRest(j, ToWake(j.l))
    else if !InLoop(p, j.l) || !(0 <= p.count < ToWake(j.l)) || !(p.count <= |h|) then false
    else if p.WakeScan? then got == h[..p.count] && c == JobRest(j, p.count)
    else
      && p.count < |h| && p.x == h[p.count] && c == JobRest(j, p.count + 1)
      && got == if p.WakeClear? then h[..p.count] else h[..p.count + 1]
  }

  ghost predicate LoopAt(j: Job, s: State, t: Tid, got: seq<Tid>) {
    && LoopBucket(s.hash, j.l) == j.b && NoDup(j.c) && SameView(j.q, s, Chain(s, j.b))
    && Progress(j, At(s, t), got, Chain(s, j.b))
  }

  lemma {:induction false} RestEnough(q: Table, c: seq<Tid>, key: Key, bits: Option<set<nat>>, n: nat, m: nat)
    requires |Hits(q, c, key, bits)| <= n <= m
    ensures Rest(q, c, key, bits, n) == Rest(q, c, key, bits, m)
    decreases |c|
  {
    if c != [] {
      RestEnough(q, c[1..], key, bits, if Hit(q, c[0], key, bits) then n - 1 else n, if Hit(q, c[0], key, bits) then m - 1 else m);
    }
  }

  /** The scan stops at the next match, if there is one. */
  lemma {:induction false} ScanFinds(j: Job, s: State, count: nat, c: seq<Tid>)
    requires c == JobRest(j, count) && SameView(j.q, s, c) && count <= |JobHits(j)|
    ensures First(s, c, LoopKey(j.l), LoopBits(j.l), {}) == if count == |JobHits(j)| then None else Some(JobHits(j)[count])
  {
    RestHits(j.q, j.c, LoopKey(j.l), LoopBits(j.l), count);
    FirstHit(j.q, s, c, LoopKey(j.l), LoopBits(j.l));
  }

  lemma {:induction false} ScanEnds(j: Job, count: int, got: seq<Tid>, c: seq<Tid>)
    requires Progress(j, WakeScan(j.l, count), got, c) && count == |JobHits(j)|
    ensures Progress(j, LoopNext(j.l), got, c)
  {
    RestEnough(j.q, j.c, LoopKey(j.l), LoopBits(j.l), count, ToWake(j.l));
  }

  lemma {:induction false} ScanPicks(j: Job, count: int, got: seq<Tid>, c: seq<Tid>)
    requires Progress(j, WakeScan(j.l, count), got, c) && 0 <= count < |JobHits(j)| && NoDup(j.c)
    ensures var x := JobHits(j)[count]; Progress(j, WakeClear(ByLoop(j.l), count, x), got, Without(c, x))
    ensures NoDup(c)
  {
    RestNext(j.q, j.c, LoopKey(j.l), LoopBits(j.l), count);
    RestApart(j.q, j.c, LoopKey(j.l), LoopBits(j.l), count);
  }

  lemma {:induction false} ClearGets(j: Job, count: int, x: Tid, got: seq<Tid>, c: seq<Tid>)
    requires Progress(j, WakeClear(ByLoop(j.l), count, x), got, c)
    ensures Progress(j, WakeResp(ByLoop(j.l), count, x), got + [x], c)
  {
    var h := JobHits(j);
    assert h[..count] + [h[count]] == h[..count + 1];
  }

  lemma {:induction false} RespGoesOn(j: Job, count: int, x: Tid, got: seq<Tid>, c: seq<Tid>)
    requires Progress(j, WakeResp(ByLoop(j.l), count, x), got, c)
    ensures Progress(j, AfterWake(ByLoop(j.l), count), got, c)
  {
  }

  lemma {:induction false} RunScan(s: State, t: Tid, l: Loop, count: int)
    requires At(s, t) == WakeScan(l, count)
    ensures var b, s' := LoopBucket(s.hash, l), Run(s, t);
            var f := First(s, Chain(s, b), LoopKey(l), LoopBits(l), {});
            if f.None? then At(s', t) == LoopNext(l) && Chain(s', b) == Chain(s, b)
            else At(s', t) == WakeClear(ByLoop(l), count, f.value) && Chain(s', b) == Without(Chain(s, b), f.value)
  {
  }

  lemma {:induction false} RunClear(s: State, t: Tid, who: Caller, count: int, x: Tid)
    requires At(s, t) == WakeClear(who, count, x)
    ensures At(Run(s, t), t) == WakeResp(who, count, x) && Run(s, t).chain == s.chain
  {
  }

  lemma {:induction false} RunResp(s: State, t: Tid, who: Caller, count: int, x: Tid)
    requires At(s, t) == WakeResp(who, count, x)
    ensures At(Run(s, t), t) == AfterWake(who, count) && Run(s, t).chain == s.chain
  {
  }

  /** The waker's own steps leave the view of the chain as it is. */
  lemma {:induction false} OwnView(j: Job, s: State, t: Tid, c: seq<Tid>)
    requires SameView(j.q, s, Chain(s, j.b)) && InLoop(At(s, t), j.l) && forall x :: x in c ==> x in Chain(s, j.b)
    ensures SameView(j.q, Run(s, t), c) && Run(s, t).hash == s.hash
  {
    StepFrame(s, t);
  }

  lemma {:induction false} ScanTakes(j: Job, s: State, t: Tid, got: seq<Tid>)
    requires At(s, t).WakeScan? && InLoop(At(s, t), j.l) && LoopAt(j, s, t, got)
    ensures LoopAt(j, Run(s, t), t, got)
  {
    var count, c := At(s, t).count, Chain(s, j.b);
    RunScan(s, t, j.l, count);
    ScanFinds(j, s, count, c);
    if count == |JobHits(j)| {
      ScanEnds(j, count, got, c);
      OwnView(j, s, t, c);
    } else {
      ScanPicks(j, count, got, c);
      WithoutIn(c, JobHits(j)[count]);
      OwnView(j, s, t, Without(c, JobHits(j)[count]));
    }
  }

  lemma {:induction false} ClearTakes(j: Job, s: State, t: Tid, got: seq<Tid>)
    requires At(s, t).WakeClear? && InLoop(At(s, t), j.l) && LoopAt(j, s, t, got)
    ensures LoopAt(j, Run(s, t), t, got + [At(s, t).x])
  {
    var p := At(s, t);
    RunClear(s, t, p.who, p.count, p.x);
    ClearGets(j, p.count, p.x, got, Chain(s, j.b));
    OwnView(j, s, t, Chain(s, j.b));
  }

  lemma {:induction false} RespTakes(j: Job, s: State, t: Tid, got: seq<Tid>)
    requires At(s, t).WakeResp? && InLoop(At(s, t), j.l) && LoopAt(j, s, t, got)
    ensures LoopAt(j, Run(s, t), t, got)
  {
    var p := At(s, t);
    RunResp(s, t, p.who, p.count, p.x);
    RespGoesOn(j, p.count, p.x, got, Chain(s, j.b));
    OwnView(j, s, t, Chain(s, j.b));
  }

  /** Inside the loop and right after it the caller holds the lock of the loop's bucket, and is where no event but its own step
      moves it. */
  lemma {:induction false} LoopHolds(j: Job, s: State, t: Tid, got: seq<Tid>)
    requires LoopAt(j, s, t, got)
    ensures j.b in Locks(s.hash, At(s, t)) && !At(s, t).Idle? && !At(s, t).OpApply?
  {
  }

  lemma {:induction false} OtherTakes(j: Job, s: State, e: Event, t: Tid, got: seq<Tid>)
    requires Inv(s) && LoopAt(j, s, t, got) && e != Continue(t)
    ensures LoopAt(j, Step(s, e), t, got)
  {
    LoopHolds(j, s, t, got);
    HeldChain(s, e, t, j.b);
    if e.Continue? {
      OtherStep(s, e.t, t);
    } else {
      BeginElsewhere(s, e, t);
    }
  }

  /** Thread t makes no step outside loop l in this run. */
  predicate StaysInLoop(s: State, es: seq<Event>, t: Tid, l: Loop)
    decreases |es|
  {
    es == [] || ((es[0] == Continue(t) ==> InLoop(At(s, t), l)) && StaysInLoop(Step(s, es[0]), es[1..], t, l))
  }

  function ClearedNow(s: State, e: Event, t: Tid): seq<Tid> {
    if e == Continue(t) && At(s, t).WakeClear? then [At(s, t).x] else []
  }

  /** The waiters whose lock_ptr thread t sets to NULL in a run, in that order. */
  function ClearedBy(s: State, es: seq<Event>, t: Tid): seq<Tid>
    decreases |es|
  {
    if es == [] then [] else ClearedNow(s, es[0], t) + ClearedBy(Step(s, es[0]), es[1..], t)
  }

  lemma {:induction false} StepTakes(j: Job, s: State, e: Event, t: Tid, got: seq<Tid>)
    requires Inv(s) && LoopAt(j, s, t, got) && (e == Continue(t) ==> InLoop(At(s, t), j.l))
    ensures LoopAt(j, Step(s, e), t, got + ClearedNow(s, e, t))
  {
    assert got + [] == got;
    if e != Continue(t) {
      OtherTakes(j, s, e, t, got);
    } else if At(s, t).WakeScan? {
      ScanTakes(j, s, t, got);
    } else if At(s, t).WakeClear? {
      ClearTakes(j, s, t, got);
    } else {
      RespTakes(j, s, t, got);
    }
  }

  lemma {:induction false} Regroup(a: seq<Tid>, b: seq<Tid>, c: seq<Tid>)
    ensures a + b + c == a + (b + c)
  {
  }

  lemma {:induction false} LoopThroughout(j: Job, s: State, es: seq<Event>, t: Tid, got: seq<Tid>)
    requires Inv(s) && LoopAt(j, s, t, got) && StaysInLoop(s, es, t, j.l)
    ensures LoopAt(j, Exec(s, es), t, got + ClearedBy(s, es, t))
    decreases |es|
  {
    if es == [] {
      assert got + [] == got;
    } else {
      var s', now := Step(s, es[0]), ClearedNow(s, es[0], t);
      StepTakes(j, s, es[0], t, got);
      StepKeeps(s, es[0]);
      LoopThroughout(j, s', es[1..], t, got + now);
      Regroup(got, now, ClearedBy(s', es[1..], t));
    }
  }

  lemma {:induction false} LoopStarts(s: State, t: Tid, l: Loop)
    requires Inv(s) && At(s, t) == WakeScan(l, 0)
    ensures LoopAt(JobOf(s, l), s, t, [])
  {
    var j := JobOf(s, l);
    RestZero(j.q, j.c, LoopKey(l), LoopBits(l));
  }

  lemma {:induction false} LoopEnds(j: Job, s: State, t: Tid, got: seq<Tid>)
    requires LoopAt(j, s, t, got) && !InLoop(At(s, t), j.l)
    ensures var h := JobHits(j);
            && At(s, t) == LoopNext(j.l) && got == h[..Min(ToWake(j.l), |h|)] && Chain(s, j.b) == JobRest(j, ToWake(j.l))
            && LoopHits(s, j.l) == h[Min(ToWake(j.l), |h|)..] && (NoneLeft(s, LoopKey(j.l), LoopBits(j.l)) <==> |h| <= ToWake(j.l))
  {
    var c := Chain(s, j.b);
    RestHits(j.q, j.c, LoopKey(j.l), LoopBits(j.l), ToWake(j.l));
    FirstHit(j.q, s, c, LoopKey(j.l), LoopBits(j.l));
    HitsView(j.q, Entries(s, j.b), c, LoopKey(j.l), LoopBits(j.l));
  }

  /** In every interleaving, a loop of futex_wake or futex_wake_op clears the first max(n, 1) of the matches that were on the
      chain when it began, in their order, and leaves the rest of that chain as it was; so no match is left iff the count
      covers them all. */
  lemma {:induction false} WakeCovers(s0: State, before: seq<Event>, t: Tid, l: Loop, during: seq<Event>)
    requires Init(s0) && At(Exec(s0, before), t) == WakeScan(l, 0)
    requires StaysInLoop(Exec(s0, before), during, t, l) && !InLoop(At(Exec(Exec(s0, before), during), t), l)
    ensures var s1 := Exec(s0, before);
            var b, h, s := LoopBucket(s1.hash, l), LoopHits(s1, l), Exec(s1, during);
            && At(s, t) == LoopNext(l) && ClearedBy(s1, during, t) == h[..Min(ToWake(l), |h|)]
            && Chain(s, b) == Rest(Entries(s1, b), Chain(s1, b), LoopKey(l), LoopBits(l), ToWake(l))
            && LoopHits(s, l) == h[Min(ToWake(l), |h|)..]
            && (NoneLeft(s, LoopKey(l), LoopBits(l)) <==> |h| <= ToWake(l))
  {
    InitInv(s0);
    ExecKeeps(s0, before);
    LoopCovers(Exec(s0, before), t, l, during);
  }

  lemma {:induction false} LoopCovers(s1: State, t: Tid, l: Loop, during: seq<Event>)
    requires Inv(s1) && At(s1, t) == WakeScan(l, 0) && StaysInLoop(s1, during, t, l) && !InLoop(At(Exec(s1, during), t), l)
    ensures var h, s := LoopHits(s1, l), Exec(s1, during);
            && At(s, t) == LoopNext(l) && ClearedBy(s1, during, t) == h[..Min(ToWake(l), |h|)]
            && Chain(s, LoopBucket(s1.hash, l)) == JobRest(JobOf(s1, l), ToWake(l))
            && LoopHits(s, l) == h[Min(ToWake(l), |h|)..]
            && (NoneLeft(s, LoopKey(l), LoopBits(l)) <==> |h| <= ToWake(l))
  {
    var j, got := JobOf(s1, l), ClearedBy(s1, during, t);
    LoopStarts(s1, t, l);
    LoopThroughout(j, s1, during, t, []);
    assert [] + got == got;
    LoopEnds(j, Exec(s1, during), t, got);
  }

  lemma {:induction false} HitsView(q: Table, q': Table, c: seq<Tid>, key: Key, bits: Option<set<nat>>)
    requires forall x :: x in c ==> Hit(q, x, key, bits) == Hit(q', x, key, bits)
    ensures Hits(q, c, key, bits) == Hits(q', c, key, bits)
    decreases |c|
  {
    if c != [] {
      HitsView(q, q', c[1..], key, bits);
    }
  }

  // ---------------------------------------------------------------------------------------------- no lost wake-up

  /** Waiter t compared the word at k with v and matches bits, and is queued, or past the comparison, under k. */
  ghost predicate Stale(s: State, t: Tid, k: Key, v: int, bits: Option<set<nat>>) {
    && (At(s, t).Enqueue? || PlaceOf(s, t).On? || PlaceOf(s, t).Held?)
    && Match(s, t, k, bits) && Q(s, t).val == v && !Q(s, t).moved
  }

  ghost predicate Clean(s: State, k: Key, v: int, bits: Option<set<nat>>) {
    forall t :: !Stale(s, t, k, v, bits)
  }

  /** No waiter on k's chain matches. */
  predicate NoneLeft(s: State, k: Key, bits: Option<set<nat>>) {
    First(s, Chain(s, s.hash(k)), k, bits, {}).None?
  }

  /** A waker that leaves no match on the chain leaves none behind: neither queued nor about to queue. */
  lemma {:induction false} WakeCleans(s: State, t: Tid, k: Key, v: int, bits: Option<set<nat>>)
    requires Inv(s) && s.hash(k) in Locks(s.hash, At(s, t)) && Victim(At(s, t)).None? && !InWait(At(s, t)) && NoneLeft(s, k, bits)
    ensures Clean(s, k, v, bits)
  {
    forall u ensures !Stale(s, u, k, v, bits) {
      if Stale(s, u, k, v, bits) {
        StaleOnChain(s, t, u, k, v, bits);
        assert false;
      }
    }
  }

  lemma {:induction false} StaleOnChain(s: State, t: Tid, u: Tid, k: Key, v: int, bits: Option<set<nat>>)
    requires Inv(s) && s.hash(k) in Locks(s.hash, At(s, t)) && Victim(At(s, t)).None? && !InWait(At(s, t)) && Stale(s, u, k, v, bits)
    ensures u in Chain(s, s.hash(k)) && Match(s, u, k, bits)
  {
    var b := s.hash(k);
    assert ThreadOk(s, u) && ThreadOk(s, t);
    assert s.lock[b] == t;
    assert At(s, u).Enqueue? ==> b in Locks(s.hash, At(s, u));
    if PlaceOf(s, u).Held? {
      HandlerLocks(s, u, b);
    }
    assert PlaceOf(s, u) == On(b) ==> Loc(s, u) == Some(b);
  }

  lemma {:induction false} OwnWait(s: State, t: Tid, k: Key, v: int, bits: Option<set<nat>>)
    requires Inv(s) && (At(s, t).SetLock? || At(s, t).Lock? || At(s, t).Check? || At(s, t).Enqueue? || At(s, t).Queued?
                        || At(s, t).Refused? || At(s, t).Sleep?)
    requires Stale(Run(s, t), t, k, v, bits)
    ensures Stale(s, t, k, v, bits) || Mem(s, k) == v
  {
    assert ThreadOk(s, t);
  }

  lemma {:induction false} OwnUnqueue(s: State, t: Tid, k: Key, v: int, bits: Option<set<nat>>)
    requires Inv(s) && (At(s, t).ReadLock? || At(s, t).Relock? || At(s, t).Recheck? || At(s, t).Retry? || At(s, t).Delete? || At(s, t).Deleted?
                        || At(s, t).Returned?)
    requires Stale(Run(s, t), t, k, v, bits)
    ensures Stale(s, t, k, v, bits)
  {
    assert ThreadOk(s, t);
  }

  lemma {:induction false} OwnStale(s: State, t: Tid, k: Key, v: int, bits: Option<set<nat>>)
    requires Inv(s) && Stale(Run(s, t), t, k, v, bits)
    ensures Stale(s, t, k, v, bits) || Mem(s, k) == v
  {
    var p := At(s, t);
    if p.SetLock? || p.Lock? || p.Check? || p.Enqueue? || p.Queued? || p.Refused? || p.Sleep? {
      OwnWait(s, t, k, v, bits);
    } else if p.ReadLock? || p.Relock? || p.Recheck? || p.Retry? || p.Delete? || p.Deleted? || p.Returned? {
      OwnUnqueue(s, t, k, v, bits);
    } else {
      OwnOutside(s, t);
    }
  }

  /** A waiter joins the stale ones only by reading v in the word. */
  lemma {:induction false} StaleStep(s: State, e: Event, t: Tid, k: Key, v: int, bits: Option<set<nat>>)
    requires Inv(s) && Mem(s, k) != v && Stale(Step(s, e), t, k, v, bits)
    ensures Stale(s, t, k, v, bits)
  {
    if e.Continue? {
      if e.t == t {
        OwnStale(s, t, k, v, bits);
      } else {
        OtherStep(s, e.t, t);
      }
    } else {
      StaleBegin(s, e, t, k, v, bits);
    }
  }

  /** A thread entering futex_wait is not past the comparison. */
  lemma {:induction false} StaleBegin(s: State, e: Event, t: Tid, k: Key, v: int, bits: Option<set<nat>>)
    requires Inv(s) && !e.Continue? && Stale(Step(s, e), t, k, v, bits)
    ensures Stale(s, t, k, v, bits)
  {
    BeginPc(s, e, t);
    if !e.Wait? {
      BeginSame(s, e);
    } else if At(s, e.t).Idle? && e.t == t {
      NotSubject(s, t);
    }
  }

  /** The word at k differs from v in every state before the end of the run. */
  predicate Differs(s: State, es: seq<Event>, k: Key, v: int)
    decreases |es|
  {
    es == [] || (Mem(s, k) != v && Differs(Step(s, es[0]), es[1..], k, v))
  }

  lemma {:induction false} StaysClean(s: State, es: seq<Event>, k: Key, v: int, bits: Option<set<nat>>)
    requires Inv(s) && Clean(s, k, v, bits) && Differs(s, es, k, v)
    ensures Clean(Exec(s, es), k, v, bits)
    decreases |es|
  {
    if es != [] {
      var s' := Step(s, es[0]);
      StepKeeps(s, es[0]);
      forall t ensures !Stale(s', t, k, v, bits) {
        if Stale(s', t, k, v, bits) {
          StaleStep(s, es[0], t, k, v, bits);
          assert false;
        }
      }
      StaysClean(s', es[1..], k, v, bits);
    }
  }

  /** No lost wake-up: take any run in which such a loop begins with no more matches on the chain than it is to wake, and comes
      to its end. While the word then keeps away from v, no waiter that compared it with v and matches is on any chain under
      the loop's key, unless it was requeued there. */
  lemma {:induction false} NoLostWakeUp(s0: State, before: seq<Event>, t: Tid, l: Loop, during: seq<Event>,
                                        after: seq<Event>, v: int, u: Tid, b: nat)
    requires Init(s0) && At(Exec(s0, before), t) == WakeScan(l, 0)
    requires |LoopHits(Exec(s0, before), l)| <= ToWake(l)
    requires StaysInLoop(Exec(s0, before), during, t, l) && !InLoop(At(Exec(Exec(s0, before), during), t), l)
    requires Differs(Exec(Exec(s0, before), during), after, LoopKey(l), v)
    ensures var s := Exec(Exec(Exec(s0, before), during), after);
            u in Chain(s, b) && Match(s, u, LoopKey(l), LoopBits(l)) ==> Q(s, u).val != v || Q(s, u).moved
  {
    InitInv(s0);
    ExecKeeps(s0, before);
    var s1 := Exec(s0, before);
    LoopCovers(s1, t, l, during);
    ExecKeeps(s1, during);
    NoneComesBack(Exec(s1, during), t, l, after, v, u, b);
  }

  lemma {:induction false} NoneComesBack(s: State, t: Tid, l: Loop, after: seq<Event>, v: int, u: Tid, b: nat)
    requires Inv(s) && At(s, t) == LoopNext(l) && NoneLeft(s, LoopKey(l), LoopBits(l)) && Differs(s, after, LoopKey(l), v)
    ensures var s' := Exec(s, after);
            u in Chain(s', b) && Match(s', u, LoopKey(l), LoopBits(l)) ==> Q(s', u).val != v || Q(s', u).moved
  {
    LoopOutside(l);
    WakeCleans(s, t, LoopKey(l), v, LoopBits(l));
    StaysClean(s, after, LoopKey(l), v, LoopBits(l));
    ExecKeeps(s, after);
    if u in Chain(Exec(s, after), b) && Match(Exec(s, after), u, LoopKey(l), LoopBits(l)) {
      CleanChain(Exec(s, after), LoopKey(l), v, LoopBits(l), u, b);
    }
  }

  lemma {:induction false} CleanChain(s: State, k: Key, v: int, bits: Option<set<nat>>, u: Tid, b: nat)
    requires Inv(s) && Clean(s, k, v, bits) && u in Chain(s, b) && Match(s, u, k, bits)
    ensures Q(s, u).val != v || Q(s, u).moved
  {
    assert !Stale(s, u, k, v, bits);
    assert Loc(s, u) == Some(b);
  }
}
