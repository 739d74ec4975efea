/** The per-CPU run queues of kernel/process.c: what schedule(), add, delete and migration do to the queues. */
module RunQueue {
  import opened Seqs

  type Tid = nat

  datatype Status = Running | Interruptible | Exited | Other

  /** struct thread; cpuSet is its affinity, vm its address space, `signal` whether hassigpending holds. */
  datatype Thread = Thread(status: Status, cpuId: nat, spawning: bool, signal: bool, cpuSet: set<nat>, vm: nat)

  /** struct cpu_local_var; current is None while the idle thread runs. */
  datatype CpuVar = CpuVar(runq: seq<Tid>, len: int, current: Option<Tid>, needMigrate: bool, needResched: bool, noPreempt: bool, migq: seq<Tid>)

  /** vmCpus is the cpu_set of each address space, from which TLB shootdown takes its snapshot. faulted says that list_del
      was applied to an entry that is on no list: it then stores through the poison pointers left in the entry. */
  datatype State = State(cpus: map<nat, CpuVar>, threads: map<Tid, Thread>, vmCpus: map<nat, set<nat>>, faulted: bool)

  function Cpus(s: State, vm: nat): set<nat> {
    if vm in s.vmCpus then s.vmCpus[vm] else {}
  }

  // ---------------------------------------------------------------------------------------------- schedule

  predicate Runnable(th: map<Tid, Thread>, t: Tid) {
    t in th && (th[t].status == Running || (th[t].status == Interruptible && th[t].signal))
  }

  predicate Spawning(th: map<Tid, Thread>, t: Tid) {
    t in th && th[t].status == Running && th[t].spawning
  }

  function FirstRunnable(th: map<Tid, Thread>, q: seq<Tid>): Option<Tid> {
    if q == [] then None else if Runnable(th, q[0]) then Some(q[0]) else FirstRunnable(th, q[1..])
  }

  function FirstSpawning(th: map<Tid, Thread>, q: seq<Tid>): Option<Tid> {
    if q == [] then None else if Spawning(th, q[0]) then Some(q[0]) else FirstSpawning(th, q[1..])
  }

  /** The first thread being spawned to a remote node, else the first that can run. */
  function Pick(th: map<Tid, Thread>, q: seq<Tid>): Option<Tid> {
    if FirstSpawning(th, q).Some? then FirstSpawning(th, q) else FirstRunnable(th, q)
  }

  predicate PrevExited(s: State, c: nat)
    requires c in s.cpus
  {
    var cur := s.cpus[c].current;
    cur.Some? && cur.value in s.threads && s.threads[cur.value].status == Exited
  }

  /** The queue once the previous thread has gone to its end, or has left it. */
  function Rotated(s: State, c: nat): seq<Tid>
    requires c in s.cpus
  {
    var v := s.cpus[c];
    if v.current.None? then v.runq
    else if PrevExited(s, c) then Without(v.runq, v.current.value)
    else Without(v.runq, v.current.value) + [v.current.value]
  }

  /** schedule() runs the idle thread for a migration request or an exited thread. */
  predicate Diverted(s: State, c: nat)
    requires c in s.cpus
  {
    s.cpus[c].needMigrate || PrevExited(s, c)
  }

  function Scheduled(s: State, c: nat): State
    requires c in s.cpus
  {
    var v := s.cpus[c];
    if v.noPreempt then s.(cpus := s.cpus[c := v.(needResched := true)])
    else if v.current.Some? && v.current.value !in v.runq then s.(faulted := true)
    else
      s.(cpus := s.cpus[c := v.(runq := Rotated(s, c),
                                len := if PrevExited(s, c) then v.len - 1 else v.len,
                                current := if Diverted(s, c) then None else Pick(s.threads, Rotated(s, c)))])
  }

  // ---------------------------------------------------------------------------------------------- add and delete

  /** __runq_add_thread */
  function Added(s: State, t: Tid, c: nat): State
    requires c in s.cpus && t in s.threads
  {
    var v := s.cpus[c];
    s.(cpus := s.cpus[c := v.(runq := v.runq + [t], len := v.len + 1, needResched := true)],
       threads := s.threads[t := s.threads[t].(cpuId := c)])
  }

  /** runq_del_thread */
  function Deleted(s: State, t: Tid, c: nat): State
    requires c in s.cpus
  {
    var v := s.cpus[c];
    if t !in v.runq then s.(faulted := true)
    else s.(cpus := s.cpus[c := v.(runq := Without(v.runq, t), len := v.len - 1)])
  }

  // ---------------------------------------------------------------------------------------------- migration

  function Least(s: set<nat>, from: nat, limit: nat): (r: nat)
    requires from <= limit
    ensures from <= r <= limit
    ensures r < limit ==> r in s
    ensures forall c :: from <= c < r ==> c !in s
    decreases limit - from
  {
    if from == limit || from in s then from else Least(s, from + 1, limit)
  }

  const CPU_SETSIZE: nat := 1024

  /** The CPU do_migrate moves t to, if it moves it. */
  function Target(s: State, c: nat, t: Tid): Option<nat> {
    if t !in s.threads || s.threads[t].cpuId != c || c in s.threads[t].cpuSet then None
    else
      var d := Least(s.threads[t].cpuSet, 0, CPU_SETSIZE);
      if d == CPU_SETSIZE then None else Some(d)
  }

  /** Some thread of address space vm is on the queue. */
  predicate HasVm(th: map<Tid, Thread>, q: seq<Tid>, vm: nat) {
    exists u :: u in q && u in th && th[u].vm == vm
  }

  /** do_migrate for one request. */
  function Migrated(s: State, c: nat, t: Tid): State
    requires c in s.cpus && (Target(s, c, t).Some? ==> Target(s, c, t).value in s.cpus)
  {
    if s.faulted || Target(s, c, t).None? then s
    else if t !in s.cpus[c].runq then s.(faulted := true)
    else
      var d := Target(s, c, t).value;
      var v, w, vm := s.cpus[c], s.cpus[d], s.threads[t].vm;
      var q := Without(v.runq, t);
      s.(cpus := s.cpus[c := v.(runq := q, len := v.len - 1)][d := w.(runq := w.runq + [t], len := w.len + 1, needResched := true)],
         threads := s.threads[t := s.threads[t].(cpuId := d)],
         vmCpus := s.vmCpus[vm := if HasVm(s.threads, q, vm) then Cpus(s, vm) + {d} else Cpus(s, vm) - {c} + {d}])
  }

  /** sched_request_migrate */
  function Requested(s: State, t: Tid, c: nat): State
    requires c in s.cpus
  {
    var v := s.cpus[c];
    s.(cpus := s.cpus[c := v.(migq := v.migq + [t], needResched := true, needMigrate := true)])
  }

  /** CPU c has a request, and its target is a CPU that exists. */
  predicate CanHandle(s: State, c: nat) {
    && c in s.cpus && s.cpus[c].migq != []
    && var t := s.cpus[c].migq[0]; Target(s, c, t).Some? ==> Target(s, c, t).value in s.cpus
  }

  /** One round of do_migrate's loop: the oldest request leaves the queue and is handled. */
  function Handled(s: State, c: nat): State
    requires CanHandle(s, c)
  {
    var v := s.cpus[c];
    Migrated(s.(cpus := s.cpus[c := v.(migq := v.migq[1..])]), c, v.migq[0])
  }

  /** release_thread on the last reference: destroy_thread takes the thread's CPU out of its address space's cpu_set. */
  function Released(s: State, t: Tid): State
    requires t in s.threads
  {
    var vm := s.threads[t].vm;
    s.(vmCpus := s.vmCpus[vm := Cpus(s, vm) - {s.threads[t].cpuId}])
  }

  // ---------------------------------------------------------------------------------------------- the invariant

  /** Thread t may be on CPU c's queue. */
  predicate Belongs(s: State, c: nat, t: Tid) {
    t in s.threads && s.threads[t].cpuId == c
  }

  /** runq_len is the length of the queue, no thread is on it twice, each names this CPU as its own, and the current thread
      is on it. */
  ghost predicate QueueOk(s: State, c: nat) {
    c in s.cpus ==>
      var v := s.cpus[c];
      && v.len == |v.runq| && NoDup(v.runq)
      && (forall t :: t in v.runq ==> Belongs(s, c, t))
      && (v.current.Some? ==> v.current.value in v.runq)
  }

  ghost predicate Ok(s: State) {
    !s.faulted && forall c :: QueueOk(s, c)
  }

  /** Each thread is on one queue at most: the one its cpu_id names. */
  lemma {:induction false} OneQueue(s: State, c: nat, d: nat, t: Tid)
    requires Ok(s) && c in s.cpus && d in s.cpus && t in s.cpus[c].runq && t in s.cpus[d].runq
    ensures c == d
  {
    assert QueueOk(s, c) && QueueOk(s, d);
  }

  lemma {:induction false} PickIn(th: map<Tid, Thread>, q: seq<Tid>)
    ensures FirstRunnable(th, q).Some? ==> FirstRunnable(th, q).value in q
    ensures FirstSpawning(th, q).Some? ==> FirstSpawning(th, q).value in q && Spawning(th, FirstSpawning(th, q).value)
    decreases |q|
  {
    if q != [] {
      PickIn(th, q[1..]);
    }
  }

  lemma {:induction false} RotatedOk(s: State, c: nat)
    requires Ok(s) && c in s.cpus
    ensures NoDup(Rotated(s, c)) && |Rotated(s, c)| == if PrevExited(s, c) then s.cpus[c].len - 1 else s.cpus[c].len
    ensures forall t :: t in Rotated(s, c) ==> t in s.cpus[c].runq
  {
    assert QueueOk(s, c);
    var v := s.cpus[c];
    if v.current.Some? {
      WithoutIn(v.runq, v.current.value);
      NoDupAppend(Without(v.runq, v.current.value), [v.current.value]);
    }
  }

  lemma {:induction false} ScheduleKeeps(s: State, c: nat)
    requires Ok(s) && c in s.cpus
    ensures Ok(Scheduled(s, c))
  {
    var s' := Scheduled(s, c);
    assert QueueOk(s, c);
    RotatedOk(s, c);
    PickIn(s.threads, Rotated(s, c));
    forall d ensures QueueOk(s', d) {
      assert QueueOk(s, d);
      assert forall t :: Belongs(s, d, t) ==> Belongs(s', d, t);
    }
  }

  /** A thread that is on no queue joins one. */
  lemma {:induction false} AddKeeps(s: State, t: Tid, c: nat)
    requires Ok(s) && c in s.cpus && t in s.threads
    requires forall d :: d in s.cpus ==> t !in s.cpus[d].runq
    ensures Ok(Added(s, t, c))
  {
    var s' := Added(s, t, c);
    forall d ensures QueueOk(s', d) {
      assert QueueOk(s, d);
      if d == c {
        NoDupAppend(s.cpus[c].runq, [t]);
      }
      assert forall u :: u != t && Belongs(s, d, u) ==> Belongs(s', d, u);
    }
  }

  /** A thread that is not running leaves its queue. */
  lemma {:induction false} DeleteKeeps(s: State, t: Tid, c: nat)
    requires Ok(s) && c in s.cpus && t in s.cpus[c].runq && s.cpus[c].current != Some(t)
    ensures Ok(Deleted(s, t, c))
  {
    var s' := Deleted(s, t, c);
    forall d ensures QueueOk(s', d) {
      assert QueueOk(s, d);
      if d == c {
        WithoutIn(s.cpus[c].runq, t);
      }
      assert forall u :: Belongs(s, d, u) ==> Belongs(s', d, u);
    }
  }

  /** do_migrate never takes one queue's lock twice: the target is another CPU. */
  lemma {:induction false} TargetElsewhere(s: State, c: nat, t: Tid)
    requires Target(s, c, t).Some?
    ensures Target(s, c, t).value != c && Target(s, c, t).value in s.threads[t].cpuSet && Target(s, c, t).value < CPU_SETSIZE
    ensures forall d :: d in s.threads[t].cpuSet ==> Target(s, c, t).value <= d
  {
  }

  lemma {:induction false} MigrateQueue(s: State, c: nat, t: Tid, e: nat)
    requires Ok(s) && c in s.cpus && Target(s, c, t).Some? && Target(s, c, t).value in s.cpus
    requires s.cpus[c].current.None? && t in s.cpus[c].runq
    ensures QueueOk(Migrated(s, c, t), e)
  {
    var d, s' := Target(s, c, t).value, Migrated(s, c, t);
    TargetElsewhere(s, c, t);
    assert QueueOk(s, c) && QueueOk(s, d) && QueueOk(s, e);
    WithoutIn(s.cpus[c].runq, t);
    if t !in s.cpus[d].runq {
      NoDupAppend(s.cpus[d].runq, [t]);
    }
    if e in s.cpus {
      forall u | u in s'.cpus[e].runq ensures Belongs(s', e, u) {
        assert u != t ==> Belongs(s, e, u);
      }
    }
  }

  /** do_migrate on a request it acts on keeps the queues in order exactly when the thread is still on the source queue;
      otherwise it faults. */
  lemma {:induction false} MigrateExact(s: State, c: nat, t: Tid)
    requires Ok(s) && c in s.cpus && Target(s, c, t).Some? && Target(s, c, t).value in s.cpus && s.cpus[c].current.None?
    ensures Ok(Migrated(s, c, t)) <==> t in s.cpus[c].runq
    ensures Migrated(s, c, t).faulted <==> t !in s.cpus[c].runq
    ensures t in s.cpus[c].runq ==>
              var s', d := Migrated(s, c, t), Target(s, c, t).value;
              s'.cpus[d].runq == s.cpus[d].runq + [t] && Leaves(s.cpus[c].runq, s'.cpus[c].runq, t) && s'.threads[t].cpuId == d
  {
    var s' := Migrated(s, c, t);
    if t in s.cpus[c].runq {
      forall e ensures QueueOk(s', e) {
        MigrateQueue(s, c, t, e);
      }
      TargetElsewhere(s, c, t);
      MigrateDoes(s, c, t, Target(s, c, t).value);
    }
  }

  // ---------------------------------------------------------------------------------------------- bounded waiting

  /** The entries of q before t. */
  function Before(q: seq<Tid>, t: Tid): seq<Tid> {
    if q == [] || q[0] == t then [] else [q[0]] + Before(q[1..], t)
  }

  /** The entries ahead of t on CPU c's queue, the current thread not counted. */
  function Ahead(s: State, c: nat, t: Tid): nat
    requires c in s.cpus
  {
    var v := s.cpus[c];
    if v.current.Some? then |Without(Before(v.runq, t), v.current.value)| else |Before(v.runq, t)|
  }

  lemma {:induction false} BeforeWithout(q: seq<Tid>, t: Tid, x: Tid)
    requires x != t
    ensures Before(Without(q, x), t) == Without(Before(q, t), x)
    decreases |q|
  {
    if q != [] {
      if q[0] != t && q[0] != x {
        BeforeWithout(q[1..], t, x);
        assert ([q[0]] + Without(q[1..], x))[1..] == Without(q[1..], x);
        assert ([q[0]] + Before(q[1..], t))[1..] == Before(q[1..], t);
      }
    }
  }

  lemma {:induction false} BeforeAppend(q: seq<Tid>, t: Tid, x: Tid)
    requires t in q
    ensures Before(q + [x], t) == Before(q, t)
    decreases |q|
  {
    if q[0] != t {
      assert (q + [x])[1..] == q[1..] + [x];
      BeforeAppend(q[1..], t, x);
    }
  }

  /** With no thread being spawned, the pick is t or someone ahead of it. */
  lemma {:induction false} PickAhead(th: map<Tid, Thread>, q: seq<Tid>, t: Tid)
    requires t in q && Runnable(th, t) && forall u :: u in q ==> !Spawning(th, u)
    ensures Pick(th, q).Some? && (Pick(th, q).value == t || Pick(th, q).value in Before(q, t))
    ensures Before(q, t) == [] ==> Pick(th, q).value == t
    decreases |q|
  {
    PickIn(th, q);
    if !Runnable(th, q[0]) {
      PickAhead(th, q[1..], t);
      PickIn(th, q[1..]);
    }
  }

  lemma {:induction false} WithoutLen(q: seq<Tid>, x: Tid)
    ensures |Without(q, x)| == if x in q then |q| - 1 else |q|
    decreases |q|
  {
    if q != [] {
      WithoutLen(q[1..], x);
    }
  }

  /** Thread t waits on CPU c: queued, running state, not current, and nobody on the queue is being spawned. */
  predicate Waits(s: State, c: nat, t: Tid) {
    && c in s.cpus && t in s.cpus[c].runq && s.cpus[c].current != Some(t)
    && t in s.threads && s.threads[t].status == Running
    && forall u :: u in s.cpus[c].runq ==> !Spawning(s.threads, u)
  }

  /** A call of schedule() that counts: it may pick, and is not diverted to the idle thread. */
  predicate Counts(s: State, c: nat) {
    c in s.cpus && !s.cpus[c].noPreempt && !Diverted(s, c)
  }

  /** A counted call picks t, or one entry fewer is ahead of it; any other call leaves the number as it is. */
  lemma {:induction false} ScheduleCloser(s: State, c: nat, t: Tid)
    requires Ok(s) && Waits(s, c, t)
    ensures var s' := Scheduled(s, c);
            if Counts(s, c) then s'.cpus[c].current == Some(t) || Ahead(s', c, t) + 1 == Ahead(s, c, t)
            else Ahead(s', c, t) == Ahead(s, c, t)
  {
    assert QueueOk(s, c);
    var v, q := s.cpus[c], Rotated(s, c);
    if !v.noPreempt {
      RotatedAhead(s, c, t);
      if !Diverted(s, c) {
        RotatedOk(s, c);
        PickAhead(s.threads, q, t);
        WithoutLen(Before(q, t), Pick(s.threads, q).value);
      }
    }
  }

  lemma {:induction false} RotatedAhead(s: State, c: nat, t: Tid)
    requires Ok(s) && Waits(s, c, t)
    ensures t in Rotated(s, c) && |Before(Rotated(s, c), t)| == Ahead(s, c, t)
  {
    assert QueueOk(s, c);
    var v := s.cpus[c];
    if v.current.Some? {
      var prev := v.current.value;
      WithoutIn(v.runq, prev);
      BeforeWithout(v.runq, t, prev);
      BeforeAppend(Without(v.runq, prev), t, prev);
    }
  }

  // ---------------------------------------------------------------------------------------------- runs

  /** What happens to the queues: schedule(), runq_add_thread, runq_del_thread; a migration request made, the oldest one
      handled, and the idle loop's clearing of the flag; cpu_set, and the last release of a thread; and the changes other code
      makes to threads and CPUs. */
  datatype Event =
    | Schedule(c: nat)
    | Add(t: Tid, c: nat)
    | Delete(t: Tid, c: nat)
    | Request(t: Tid, c: nat)
    | Migrate(c: nat)
    | ClearFlag(c: nat)
    | SetCpu(vm: nat, c: nat)
    | Release(t: Tid)
    | Update(t: Tid, status: Status, spawning: bool, signal: bool, cpuSet: set<nat>)
    | Flags(c: nat, needResched: bool, noPreempt: bool)

  ghost predicate OffQueues(s: State, t: Tid) {
    forall d :: d in s.cpus ==> t !in s.cpus[d].runq
  }

  /** What the source asks of each caller: a thread added or released for the last time is on no queue; a running thread is
      not deleted; the idle thread migrates and clears the flag, and the thread it acts on has not left the queue. */
  ghost predicate Allowed(s: State, e: Event) {
    match e
    case Schedule(c) => c in s.cpus
    case Add(t, c) => c in s.cpus && t in s.threads && OffQueues(s, t)
    case Delete(t, c) => c in s.cpus && t in s.cpus[c].runq && s.cpus[c].current != Some(t)
    case Request(t, c) => c in s.cpus && t in s.threads
    case Migrate(c) =>
      && c in s.cpus && s.cpus[c].current.None? && s.cpus[c].migq != []
      && var t := s.cpus[c].migq[0];
         Target(s, c, t).Some? ==> Target(s, c, t).value in s.cpus && t in s.cpus[c].runq
    case ClearFlag(c) => c in s.cpus && s.cpus[c].current.None?
    case SetCpu(_, _) => true
    case Release(t) => t in s.threads && OffQueues(s, t)
    case Update(t, _, _, _, _) => t in s.threads
    case Flags(c, _, _) => c in s.cpus
  }

  function Step(s: State, e: Event): State {
    match e
    case Schedule(c) => if c in s.cpus then Scheduled(s, c) else s
    case Add(t, c) => if c in s.cpus && t in s.threads then Added(s, t, c) else s
    case Delete(t, c) => if c in s.cpus then Deleted(s, t, c) else s
    case Request(t, c) => if c in s.cpus then Requested(s, t, c) else s
    case Migrate(c) => if CanHandle(s, c) then Handled(s, c) else s
    case ClearFlag(c) => if c in s.cpus then s.(cpus := s.cpus[c := s.cpus[c].(needMigrate := false)]) else s
    case SetCpu(vm, c) => s.(vmCpus := s.vmCpus[vm := Cpus(s, vm) + {c}])
    case Release(t) => if t in s.threads then Released(s, t) else s
    case Update(t, status, spawning, signal, cpuSet) =>
      if t in s.threads then
        s.(threads := s.threads[t := s.threads[t].(status := status, spawning := spawning, signal := signal, cpuSet := cpuSet)])
      else s
    case Flags(c, needResched, noPreempt) =>
      if c in s.cpus then s.(cpus := s.cpus[c := s.cpus[c].(needResched := needResched, noPreempt := noPreempt)]) else s
  }

  function Exec(s: State, es: seq<Event>): State
    decreases |es|
  {
    if es == [] then s else Exec(Step(s, es[0]), es[1..])
  }

  ghost predicate AllowedRun(s: State, es: seq<Event>)
    decreases |es|
  {
    es == [] || (Allowed(s, es[0]) && AllowedRun(Step(s, es[0]), es[1..]))
  }

  lemma {:induction false} UpdateKeeps(s: State, s': State)
    requires Ok(s) && !s'.faulted && s'.cpus.Keys == s.cpus.Keys && s'.threads.Keys == s.threads.Keys
    requires forall c :: c in s.cpus ==> s'.cpus[c].runq == s.cpus[c].runq && s'.cpus[c].len == s.cpus[c].len && s'.cpus[c].current == s.cpus[c].current
    requires forall t :: t in s.threads ==> s'.threads[t].cpuId == s.threads[t].cpuId && s'.threads[t].vm == s.threads[t].vm
    ensures Ok(s')
  {
    forall c ensures QueueOk(s', c) {
      assert QueueOk(s, c);
      assert forall t :: Belongs(s, c, t) ==> Belongs(s', c, t);
    }
  }

  lemma {:induction false} StepKeeps(s: State, e: Event)
    requires Ok(s) && Allowed(s, e)
    ensures Ok(Step(s, e))
  {
    match e
    case Schedule(c) => ScheduleKeeps(s, c);
    case Add(t, c) => AddKeeps(s, t, c);
    case Delete(t, c) => DeleteKeeps(s, t, c);
    case Migrate(c) => HandleKeeps(s, c);
    case _ => UpdateKeeps(s, Step(s, e));
  }

  lemma {:induction false} HandleKeeps(s: State, c: nat)
    requires Ok(s) && Allowed(s, Migrate(c))
    ensures Ok(Handled(s, c))
  {
    var v := s.cpus[c];
    var s1 := s.(cpus := s.cpus[c := v.(migq := v.migq[1..])]);
    UpdateKeeps(s, s1);
    if Target(s1, c, v.migq[0]).Some? {
      MigrateExact(s1, c, v.migq[0]);
    }
  }

  /** In every run: runq_len is the queue's length and each queued thread is on the one queue its cpu_id names. */
  lemma {:induction false} ExecKeeps(s: State, es: seq<Event>)
    requires Ok(s) && AllowedRun(s, es)
    ensures Ok(Exec(s, es))
    decreases |es|
  {
    if es != [] {
      StepKeeps(s, es[0]);
      ExecKeeps(Step(s, es[0]), es[1..]);
    }
  }

  /** Thread t waits on CPU c in every state of the run. */
  predicate WaitsThroughout(s: State, es: seq<Event>, c: nat, t: Tid)
    decreases |es|
  {
    Waits(s, c, t) && (es == [] || WaitsThroughout(Step(s, es[0]), es[1..], c, t))
  }

  /** The counted schedule() calls of CPU c in a run. */
  function Calls(s: State, es: seq<Event>, c: nat): nat
    decreases |es|
  {
    if es == [] then 0
    else (if es[0] == Schedule(c) && Counts(s, c) then 1 else 0) + Calls(Step(s, es[0]), es[1..], c)
  }

  lemma {:induction false} DropCloser(s: State, c: nat, t: Tid, x: Tid)
    requires Ok(s) && c in s.cpus && t in s.cpus[c].runq && x != t && s.cpus[c].current != Some(t) && s.cpus[c].current != Some(x)
    ensures var v := s.cpus[c];
            var b := Before(Without(v.runq, x), t);
            (if v.current.Some? then |Without(b, v.current.value)| else |b|) <= Ahead(s, c, t)
  {
    var v := s.cpus[c];
    var b := Before(v.runq, t);
    BeforeWithout(v.runq, t, x);
    WithoutLen(b, x);
    if v.current.Some? {
      WithoutLen(b, v.current.value);
      WithoutLen(Without(b, x), v.current.value);
      StillIn(b, x, v.current.value);
    }
  }

  lemma {:induction false} StillIn(q: seq<Tid>, x: Tid, y: Tid)
    requires x != y
    ensures y in Without(q, x) <==> y in q
    decreases |q|
  {
    if q != [] {
      StillIn(q[1..], x, y);
      assert y in q <==> y == q[0] || y in q[1..];
    }
  }

  /** Nothing but schedule() changes how many are ahead of t, except to fewer. */
  lemma {:induction false} OtherCloser(s: State, e: Event, c: nat, t: Tid)
    requires Ok(s) && Allowed(s, e) && Waits(s, c, t) && Waits(Step(s, e), c, t) && e != Schedule(c)
    ensures Ahead(Step(s, e), c, t) <= Ahead(s, c, t)
  {
    assert QueueOk(s, c);
    match e
    case Add(u, d) =>
      BeforeAppend(s.cpus[c].runq, t, u);
    case Delete(u, d) =>
      if d == c && u != t {
        DropCloser(s, c, t, u);
      } else if d == c {
        WithoutIn(s.cpus[c].runq, t);
      }
    case Migrate(d) =>
      var v := s.cpus[d];
      var s1 := s.(cpus := s.cpus[d := v.(migq := v.migq[1..])]);
      UpdateKeeps(s, s1);
      if Target(s1, d, v.migq[0]).Some? {
        TargetElsewhere(s1, d, v.migq[0]);
        MigrateCloser(s1, d, v.migq[0], c, t);
      }
    case _ =>
  }

  lemma {:induction false} MigrateCloser(s: State, d: nat, u: Tid, c: nat, t: Tid)
    requires Ok(s) && d in s.cpus && s.cpus[d].current.None? && u in s.cpus[d].runq
    requires Target(s, d, u).Some? && Target(s, d, u).value in s.cpus && Target(s, d, u).value != d
    requires Waits(s, c, t) && Waits(Migrated(s, d, u), c, t)
    ensures Ahead(Migrated(s, d, u), c, t) <= Ahead(s, c, t)
  {
    assert QueueOk(s, c);
    BeforeAppend(s.cpus[c].runq, t, u);
    if d == c && u != t {
      DropCloser(s, c, t, u);
    } else if d == c {
      WithoutIn(s.cpus[c].runq, t);
    }
  }

  /** Bounded waiting: a thread that stays runnable on CPU c's queue and is not picked has at most as many counted
      schedule() calls pass as there were entries ahead of it. So it is picked within one call more, whatever other threads
      do meanwhile. */
  lemma {:induction false} BoundedWaiting(s: State, es: seq<Event>, c: nat, t: Tid)
    requires Ok(s) && AllowedRun(s, es) && WaitsThroughout(s, es, c, t)
    ensures Calls(s, es, c) <= Ahead(s, c, t) <= |Before(s.cpus[c].runq, t)|
    decreases |es|
  {
    if s.cpus[c].current.Some? {
      WithoutLen(Before(s.cpus[c].runq, t), s.cpus[c].current.value);
    }
    if es != [] {
      StepKeeps(s, es[0]);
      if es[0] == Schedule(c) {
        ScheduleCloser(s, c, t);
      } else {
        OtherCloser(s, es[0], c, t);
      }
      BoundedWaiting(Step(s, es[0]), es[1..], c, t);
    }
  }

  // ---------------------------------------------------------------------------------------------- what each operation does

  /** Sequence q' is q without its entry i. */
  predicate Dropped(q: seq<Tid>, q': seq<Tid>, i: nat) {
    i < |q| && q' == q[..i] + q[i + 1..]
  }

  lemma {:induction false} WithoutDrops(q: seq<Tid>, t: Tid) returns (i: nat)
    requires t in q && NoDup(q)
    ensures i < |q| && q[i] == t && Dropped(q, Without(q, t), i)
  {
    var a, b := SplitAround(q, t);
    WithoutMiddle(a, t, b);
    i := |a|;
  }

  /** Thread t leaves queue q, and the others keep their order. */
  ghost predicate Leaves(q: seq<Tid>, q': seq<Tid>, t: Tid) {
    exists i: nat :: i < |q| && q[i] == t && Dropped(q, q', i)
  }

  /** The CPUs other than c and d are as before. */
  predicate OtherCpusSame(s: State, s': State, c: nat, d: nat) {
    s'.cpus.Keys == s.cpus.Keys && forall e :: e in s.cpus && e != c && e != d ==> s'.cpus[e] == s.cpus[e]
  }

  lemma {:induction false} AddDoes(s: State, t: Tid, c: nat)
    requires c in s.cpus && t in s.threads
    ensures var s' := Added(s, t, c);
            && OtherCpusSame(s, s', c, c) && s'.cpus[c].runq == s.cpus[c].runq + [t] && s'.cpus[c].len == s.cpus[c].len + 1
            && s'.cpus[c].needResched && s'.cpus[c].current == s.cpus[c].current && s'.cpus[c].migq == s.cpus[c].migq
            && s'.threads == s.threads[t := s.threads[t].(cpuId := c)] && s'.faulted == s.faulted
  {
  }

  /** runq_del_thread: t leaves, and the others keep their order. */
  lemma {:induction false} DeleteDoes(s: State, t: Tid, c: nat)
    requires Ok(s) && c in s.cpus && t in s.cpus[c].runq
    ensures var s' := Deleted(s, t, c);
            && OtherCpusSame(s, s', c, c) && Leaves(s.cpus[c].runq, s'.cpus[c].runq, t) && t !in s'.cpus[c].runq
            && s'.cpus[c].len == s.cpus[c].len - 1 && s'.cpus[c].current == s.cpus[c].current && s'.threads == s.threads
  {
    assert QueueOk(s, c);
    var i := WithoutDrops(s.cpus[c].runq, t);
    WithoutIn(s.cpus[c].runq, t);
  }

  /** sched_request_migrate: the request is last in line, and the CPU is told. */
  lemma {:induction false} RequestDoes(s: State, t: Tid, c: nat)
    requires c in s.cpus
    ensures var s' := Requested(s, t, c);
            && OtherCpusSame(s, s', c, c) && s'.cpus[c].migq == s.cpus[c].migq + [t] && s'.cpus[c].needMigrate && s'.cpus[c].needResched
            && s'.cpus[c].runq == s.cpus[c].runq && s'.cpus[c].len == s.cpus[c].len && s'.cpus[c].current == s.cpus[c].current
            && s'.threads == s.threads && s'.faulted == s.faulted
  {
  }

  /** A migration moves just t: off the source queue, to the end of the queue of the least CPU of its affinity mask. */
  lemma {:induction false} MigrateDoes(s: State, c: nat, t: Tid, d: nat)
    requires Ok(s) && c in s.cpus && d in s.cpus && t in s.threads && s.threads[t].cpuId == c && c !in s.threads[t].cpuSet
    requires d in s.threads[t].cpuSet && d < 1024 && (forall e :: e in s.threads[t].cpuSet ==> d <= e) && t in s.cpus[c].runq
    ensures Target(s, c, t) == Some(d)
    ensures var s' := Migrated(s, c, t);
            && !s'.faulted && OtherCpusSame(s, s', c, d) && c != d
            && Leaves(s.cpus[c].runq, s'.cpus[c].runq, t) && t !in s'.cpus[c].runq && s'.cpus[c].len == s.cpus[c].len - 1
            && s'.cpus[d].runq == s.cpus[d].runq + [t] && s'.cpus[d].len == s.cpus[d].len + 1 && s'.cpus[d].needResched
            && s'.threads == s.threads[t := s.threads[t].(cpuId := d)]
            && s'.cpus[c].current == s.cpus[c].current && s'.cpus[d].current == s.cpus[d].current
  {
    assert QueueOk(s, c);
    var e := Least(s.threads[t].cpuSet, 0, CPU_SETSIZE);
    assert e == d;
    var i := WithoutDrops(s.cpus[c].runq, t);
    WithoutIn(s.cpus[c].runq, t);
  }

  /** Index i holds the thread schedule() takes from q: the first running thread that is being spawned to a remote node; if there
      is none, the first that is running, or asleep but with a signal to handle. */
  predicate Chosen(th: map<Tid, Thread>, q: seq<Tid>, i: nat) {
    && i < |q| && q[i] in th
    && if Spawning(th, q[i]) then forall k :: 0 <= k < i ==> !Spawning(th, q[k])
       else
         && (th[q[i]].status == Running || (th[q[i]].status == Interruptible && th[q[i]].signal))
         && (forall k :: 0 <= k < i ==> !Runnable(th, q[k])) && (forall k :: 0 <= k < |q| ==> !Spawning(th, q[k]))
  }

  lemma {:induction false} SpawningFirst(th: map<Tid, Thread>, q: seq<Tid>) returns (i: nat)
    ensures FirstSpawning(th, q).None? ==> forall k :: 0 <= k < |q| ==> !Spawning(th, q[k])
    ensures FirstSpawning(th, q).Some? ==> i < |q| && q[i] == FirstSpawning(th, q).value && Spawning(th, q[i])
    ensures FirstSpawning(th, q).Some? ==> forall k :: 0 <= k < i ==> !Spawning(th, q[k])
    decreases |q|
  {
    i := 0;
    if q != [] && !Spawning(th, q[0]) {
      i := SpawningFirst(th, q[1..]);
      i := i + 1;
    }
  }

  lemma {:induction false} RunnableFirst(th: map<Tid, Thread>, q: seq<Tid>) returns (i: nat)
    ensures FirstRunnable(th, q).None? ==> forall k :: 0 <= k < |q| ==> !Runnable(th, q[k])
    ensures FirstRunnable(th, q).Some? ==> i < |q| && q[i] == FirstRunnable(th, q).value && Runnable(th, q[i])
    ensures FirstRunnable(th, q).Some? ==> forall k :: 0 <= k < i ==> !Runnable(th, q[k])
    decreases |q|
  {
    i := 0;
    if q != [] && !Runnable(th, q[0]) {
      i := RunnableFirst(th, q[1..]);
      i := i + 1;
    }
  }

  /** The pick is the thread chosen, and the idle thread when none can run. */
  lemma {:induction false} PickChosen(th: map<Tid, Thread>, q: seq<Tid>) returns (i: nat)
    ensures Pick(th, q).Some? ==> Chosen(th, q, i) && q[i] == Pick(th, q).value
    ensures Pick(th, q).None? ==> forall k :: 0 <= k < |q| && q[k] in th ==>
              th[q[k]].status != Running && !(th[q[k]].status == Interruptible && th[q[k]].signal)
  {
    i := SpawningFirst(th, q);
    if FirstSpawning(th, q).None? {
      i := RunnableFirst(th, q);
      if FirstRunnable(th, q).None? {
        assert forall k :: 0 <= k < |q| ==> !Runnable(th, q[k]);
      }
    }
  }

  /** While preemption is off, schedule() only asks to be called again. */
  lemma {:induction false} ScheduleRefused(s: State, c: nat)
    requires c in s.cpus && s.cpus[c].noPreempt
    ensures var s' := Scheduled(s, c);
            OtherCpusSame(s, s', c, c) && s'.threads == s.threads && s'.cpus[c] == s.cpus[c].(needResched := true) && s'.faulted == s.faulted
  {
  }

  /** schedule(): the previous thread goes to the end of its queue, or leaves it when it has exited; nothing else moves, and the
      chosen thread runs, unless a migration is asked for or the previous thread has exited. */
  lemma {:induction false} ScheduleDoes(s: State, c: nat)
    requires Ok(s) && c in s.cpus && !s.cpus[c].noPreempt
    ensures var s' := Scheduled(s, c);
            var v, q' := s.cpus[c], s'.cpus[c].runq;
            && OtherCpusSame(s, s', c, c) && s'.threads == s.threads && s'.cpus[c].migq == v.migq
            && (v.current.None? ==> q' == v.runq)
            && (v.current.Some? ==>
                  var prev := v.current.value;
                  exists rest :: Leaves(v.runq, rest, prev) && prev in s.threads
                                 && q' == if s.threads[prev].status == Exited then rest else rest + [prev])
            && (v.needMigrate || (v.current.Some? && v.current.value in s.threads && s.threads[v.current.value].status == Exited) ==>
                  s'.cpus[c].current == None)
            && (s'.cpus[c].current.Some? ==> exists i: nat :: Chosen(s.threads, q', i) && q'[i] == s'.cpus[c].current.value)
            && (s'.cpus[c].current.None? && !v.needMigrate && !PrevExited(s, c) ==> forall k :: 0 <= k < |q'| ==> !Runnable(s.threads, q'[k]))
  {
    assert QueueOk(s, c);
    var s', v := Scheduled(s, c), s.cpus[c];
    var q' := s'.cpus[c].runq;
    if v.current.Some? {
      var prev := v.current.value;
      assert Belongs(s, c, prev);
      var j := WithoutDrops(v.runq, prev);
      assert Leaves(v.runq, Without(v.runq, prev), prev);
    }
    var i := PickChosen(s.threads, q');
    if s'.cpus[c].current.Some? {
      assert Chosen(s.threads, q', i);
    } else if !v.needMigrate && !PrevExited(s, c) {
      forall k | 0 <= k < |q'| ensures !Runnable(s.threads, q'[k]) {
        assert q'[k] in s.threads ==> s.threads[q'[k]].status != Running;
      }
    }
  }

  // ---------------------------------------------------------------------------------------------- the cpu_set of an address space

  /** TLB shootdown reaches every CPU that has a thread of the address space queued. */
  ghost predicate Reached(s: State) {
    forall c, t :: c in s.cpus && t in s.cpus[c].runq ==> InCpuSet(s, c, t)
  }

  predicate InCpuSet(s: State, c: nat, t: Tid) {
    t in s.threads && c in Cpus(s, s.threads[t].vm)
  }

  /** A thread must be added to a CPU its address space has, and one released for the last time must not share its CPU with
      another thread of its address space. */
  predicate KeepsReach(s: State, e: Event) {
    match e
    case Add(t, c) => InCpuSet(s, c, t)
    case Release(t) => t in s.threads && s.threads[t].cpuId in s.cpus ==> !HasVm(s.threads, s.cpus[s.threads[t].cpuId].runq, s.threads[t].vm)
    case _ => true
  }

  lemma {:induction false} ReachSame(s: State, s': State)
    requires Reached(s) && s'.cpus.Keys == s.cpus.Keys && forall c, t :: c in s.cpus && t in s'.cpus[c].runq ==> t in s.cpus[c].runq
    requires forall c, t :: InCpuSet(s, c, t) ==> InCpuSet(s', c, t)
    ensures Reached(s')
  {
  }

  lemma {:induction false} ReachAdd(s: State, t: Tid, c: nat)
    requires Reached(s) && Allowed(s, Add(t, c))
    ensures Reached(Added(s, t, c)) <==> InCpuSet(s, c, t)
  {
    var s' := Added(s, t, c);
    assert t in s'.cpus[c].runq && (InCpuSet(s', c, t) <==> InCpuSet(s, c, t));
    forall d, u | d in s'.cpus && u in s'.cpus[d].runq && !(d == c && u == t) ensures InCpuSet(s', d, u) {
      assert u in s.cpus[d].runq && InCpuSet(s, d, u);
    }
  }

  lemma {:induction false} ReachRelease(s: State, t: Tid)
    requires Ok(s) && Reached(s) && Allowed(s, Release(t))
    ensures Reached(Released(s, t)) <==> KeepsReach(s, Release(t))
  {
    var s', vm, e := Released(s, t), s.threads[t].vm, s.threads[t].cpuId;
    if KeepsReach(s, Release(t)) {
      forall c, u | c in s'.cpus && u in s'.cpus[c].runq ensures InCpuSet(s', c, u) {
        assert InCpuSet(s, c, u);
      }
    } else {
      var u :| u in s.cpus[e].runq && u in s.threads && s.threads[u].vm == vm;
      assert !InCpuSet(s', e, u);
    }
  }

  lemma {:induction false} ReachMigrate(s: State, c: nat, t: Tid)
    requires Ok(s) && Reached(s) && c in s.cpus && Target(s, c, t).Some? && Target(s, c, t).value in s.cpus
    requires s.cpus[c].current.None? && t in s.cpus[c].runq
    ensures Reached(Migrated(s, c, t))
  {
    var s', d := Migrated(s, c, t), Target(s, c, t).value;
    TargetElsewhere(s, c, t);
    assert QueueOk(s, c);
    WithoutIn(s.cpus[c].runq, t);
    forall e, u | e in s'.cpus && u in s'.cpus[e].runq ensures InCpuSet(s', e, u) {
      assert u != t ==> InCpuSet(s, e, u);
      assert QueueOk(s, e);
    }
  }

  lemma {:induction false} ReachHandle(s: State, c: nat)
    requires Ok(s) && Reached(s) && Allowed(s, Migrate(c))
    ensures Reached(Handled(s, c))
  {
    var v := s.cpus[c];
    var s1 := s.(cpus := s.cpus[c := v.(migq := v.migq[1..])]);
    UpdateKeeps(s, s1);
    ReachSame(s, s1);
    if Target(s1, c, v.migq[0]).Some? {
      ReachMigrate(s1, c, v.migq[0]);
    }
  }

  /** Of all events only an add and a last release can lose a CPU, and each exactly on its condition. */
  lemma {:induction false} ReachStep(s: State, e: Event)
    requires Ok(s) && Reached(s) && Allowed(s, e)
    ensures Reached(Step(s, e)) <==> KeepsReach(s, e)
  {
    match e
    case Schedule(c) =>
      RotatedOk(s, c);
      ReachSame(s, Step(s, e));
    case Add(t, c) => ReachAdd(s, t, c);
    case Delete(t, c) =>
      assert QueueOk(s, c);
      WithoutIn(s.cpus[c].runq, t);
      ReachSame(s, Step(s, e));
    case Migrate(c) => ReachHandle(s, c);
    case Release(t) => ReachRelease(s, t);
    case _ => ReachSame(s, Step(s, e));
  }

  ghost predicate AlwaysReached(s: State, es: seq<Event>)
    decreases |es|
  {
    Reached(s) && (es == [] || AlwaysReached(Step(s, es[0]), es[1..]))
  }

  predicate AlwaysKeepsReach(s: State, es: seq<Event>)
    decreases |es|
  {
    es == [] || (KeepsReach(s, es[0]) && AlwaysKeepsReach(Step(s, es[0]), es[1..]))
  }

  /** The cpu_set covers the queues in every state of a run exactly when every add and every last release of the run meets its
      condition. */
  lemma {:induction false} ReachExact(s: State, es: seq<Event>)
    requires Ok(s) && Reached(s) && AllowedRun(s, es)
    ensures AlwaysReached(s, es) <==> AlwaysKeepsReach(s, es)
    decreases |es|
  {
    if es != [] {
      StepKeeps(s, es[0]);
      ReachStep(s, es[0]);
      if KeepsReach(s, es[0]) {
        ReachExact(Step(s, es[0]), es[1..]);
      }
    }
  }

  /** CPU 0 with queue q and the threads 5, which has exited, and 6 of address space 9, whose cpu_set is `set9`. */
  function Siblings(q: seq<Tid>, current: Option<Tid>, set9: set<nat>): State {
    State(map[0 := CpuVar(q, |q|, current, false, false, false, [])],
          map[5 := Thread(Exited, 0, false, false, {0}, 9), 6 := Thread(Running, 0, false, false, {0}, 9)], map[9 := set9], false)
  }

  lemma {:induction false} SiblingLeaves()
    ensures var s := Siblings([5, 6], Some(5), {0});
            Ok(s) && Reached(s) && Scheduled(s, 0) == Siblings([6], None, {0}) && Released(Siblings([6], None, {0}), 5) == Siblings([6], None, {})
  {
    var s := Siblings([5, 6], Some(5), {0});
    assert forall c :: QueueOk(s, c);
    assert [5, 6][1..] == [6] && [6][1..] == [] && Without([5, 6], 5) == [6];
    assert {0} - {0} == {} && map[9 := {0}][9 := {}] == map[9 := {}];
  }

  lemma {:induction false} SiblingRuns()
    ensures Scheduled(Siblings([6], None, {}), 0) == Siblings([6], Some(6), {})
  {
    var s := Siblings([6], None, {});
    assert Rotated(s, 0) == [6] && [6][1..] == [] && Pick(s.threads, [6]) == Some(6);
  }

  /** Threads 5 and 6 of one address space on CPU 0: once 5 has exited and been released, 6 runs there while the cpu_set
      that TLB shootdown reads is empty. */
  lemma {:induction false} SiblingExit()
    ensures var s, es := Siblings([5, 6], Some(5), {0}), [Schedule(0), Release(5), Schedule(0)];
            Ok(s) && Reached(s) && AllowedRun(s, es) && Exec(s, es) == Siblings([6], Some(6), {})
  {
    var s, es := Siblings([5, 6], Some(5), {0}), [Schedule(0), Release(5), Schedule(0)];
    SiblingLeaves();
    SiblingRuns();
    assert es[1..] == [Release(5), Schedule(0)] && es[1..][1..] == [Schedule(0)] && es[1..][1..][1..] == [];
    var s1, s2 := Siblings([6], None, {0}), Siblings([6], None, {});
    assert AllowedRun(s2, es[1..][1..]) && AllowedRun(s1, es[1..]);
    assert Exec(s, es) == Exec(s1, es[1..]) == Exec(s2, es[1..][1..]);
  }

  /** The first thread of a process, made on CPU 0 and started on CPU 1: its cpu_set has only the CPU that made it. */
  lemma {:induction false} StartElsewhere()
    ensures var v := CpuVar([], 0, None, false, false, false, []);
            var s := State(map[0 := v, 1 := v], map[5 := Thread(Running, 0, false, false, {1}, 9)], map[], false);
            var es := [SetCpu(9, 0), Add(5, 1)];
            && Ok(s) && Reached(s) && AllowedRun(s, es) && Exec(s, es).cpus[1].runq == [5] && !Reached(Exec(s, es))
  {
    var v := CpuVar([], 0, None, false, false, false, []);
    var s := State(map[0 := v, 1 := v], map[5 := Thread(Running, 0, false, false, {1}, 9)], map[], false);
    var es := [SetCpu(9, 0), Add(5, 1)];
    assert es[1..] == [Add(5, 1)] && es[1..][1..] == [];
    var s1 := Step(s, es[0]);
    var s2 := Step(s1, es[1]);
    assert s2.cpus[1].runq == [5] && !InCpuSet(s2, 1, 5);
    assert Exec(s, es) == Exec(s1, es[1..]) == s2;
    assert AllowedRun(s1, es[1..]);
  }

  // ---------------------------------------------------------------------------------------------- pending requests

  /** A CPU with a migration request has its flag set, so schedule() goes to the idle thread for it. */
  ghost predicate Noticed(s: State) {
    forall c :: c in s.cpus && s.cpus[c].migq != [] ==> s.cpus[c].needMigrate
  }

  predicate KeepsNotice(s: State, e: Event) {
    e.ClearFlag? && e.c in s.cpus ==> s.cpus[e.c].migq == []
  }

  /** Only the idle loop's clearing of the flag can hide a request, and does so exactly when one has come in since do_migrate. */
  lemma {:induction false} NoticeStep(s: State, e: Event)
    requires Ok(s) && Noticed(s) && Allowed(s, e)
    ensures Noticed(Step(s, e)) <==> KeepsNotice(s, e)
  {
    var s' := Step(s, e);
    if e.ClearFlag? {
      assert !s'.cpus[e.c].needMigrate;
    }
  }

  ghost predicate AlwaysNoticed(s: State, es: seq<Event>)
    decreases |es|
  {
    Noticed(s) && (es == [] || AlwaysNoticed(Step(s, es[0]), es[1..]))
  }

  predicate AlwaysKeepsNotice(s: State, es: seq<Event>)
    decreases |es|
  {
    es == [] || (KeepsNotice(s, es[0]) && AlwaysKeepsNotice(Step(s, es[0]), es[1..]))
  }

  lemma {:induction false} NoticeExact(s: State, es: seq<Event>)
    requires Ok(s) && Noticed(s) && AllowedRun(s, es)
    ensures AlwaysNoticed(s, es) <==> AlwaysKeepsNotice(s, es)
    decreases |es|
  {
    if es != [] {
      StepKeeps(s, es[0]);
      NoticeStep(s, es[0]);
      if KeepsNotice(s, es[0]) {
        NoticeExact(Step(s, es[0]), es[1..]);
      }
    }
  }

  /** A request that comes in between do_migrate and the clearing of the flag stays queued with no flag set. */
  lemma {:induction false} RequestHidden()
    ensures var s := State(map[0 := CpuVar([5], 1, None, true, false, false, [5])], map[5 := Thread(Running, 0, false, false, {0}, 9)], map[9 := {0}], false);
            var es := [Migrate(0), Request(5, 0), ClearFlag(0)];
            && Ok(s) && Noticed(s) && AllowedRun(s, es)
            && Exec(s, es).cpus[0].migq == [5] && !Exec(s, es).cpus[0].needMigrate
  {
    var s := State(map[0 := CpuVar([5], 1, None, true, false, false, [5])], map[5 := Thread(Running, 0, false, false, {0}, 9)], map[9 := {0}], false);
    var es := [Migrate(0), Request(5, 0), ClearFlag(0)];
    assert [5][1..] == [] && forall c :: QueueOk(s, c);
    assert es[1..] == [Request(5, 0), ClearFlag(0)] && es[1..][1..] == [ClearFlag(0)] && es[1..][1..][1..] == [];
    var s1 := Step(s, es[0]);
    assert Target(s, 0, 5).None? && s1.cpus[0].migq == [];
    var s2 := Step(s1, es[1]);
    var s3 := Step(s2, es[2]);
    assert Exec(s, es) == Exec(s1, es[1..]) == Exec(s2, es[1..][1..]) == s3;
    assert AllowedRun(s2, [ClearFlag(0)]) && AllowedRun(s1, es[1..]);
  }

  // ---------------------------------------------------------------------------------------------- an exited thread

  /** A thread that exits with a migration request pending: schedule() takes it off the queue, its cpu_id stays, and
      do_migrate takes it off again, which faults. */
  lemma {:induction false} ExitedMigration()
    ensures var t := Thread(Exited, 0, false, false, {1}, 9);
            var s := State(map[0 := CpuVar([5], 1, Some(5), true, false, false, [5]), 1 := CpuVar([], 0, None, false, false, false, [])],
                           map[5 := t], map[9 := {0}], false);
            && Ok(s)
            && var s1 := Scheduled(s, 0);
               Ok(s1) && Target(s1, 0, 5) == Some(1) && Migrated(s1, 0, 5).faulted
  {
    var t := Thread(Exited, 0, false, false, {1}, 9);
    var s := State(map[0 := CpuVar([5], 1, Some(5), true, false, false, [5]), 1 := CpuVar([], 0, None, false, false, false, [])],
                   map[5 := t], map[9 := {0}], false);
    assert forall c :: QueueOk(s, c);
    ScheduleKeeps(s, 0);
    assert Scheduled(s, 0).cpus[0].runq == [];
    assert Least({1}, 0, CPU_SETSIZE) == Least({1}, 1, CPU_SETSIZE) == 1;
  }

  // ---------------------------------------------------------------------------------------------- the code

  /** Affinity masks name existing CPUs. */
  predicate AffinityOk(s: State) {
    forall t :: t in s.threads ==> forall d :: d in s.threads[t].cpuSet && d < CPU_SETSIZE ==> d in s.cpus
  }

  lemma {:induction false} HandledFrame(s: State, c: nat)
    requires AffinityOk(s) && c in s.cpus && s.cpus[c].migq != []
    ensures CanHandle(s, c) && AffinityOk(Handled(s, c)) && c in Handled(s, c).cpus
    ensures Handled(s, c).cpus[c].migq == s.cpus[c].migq[1..] && Handled(s, c).cpus[c].current == s.cpus[c].current
  {
  }

  /** All of CPU c's requests handled in order, up to a fault. */
  function HandledAll(s: State, c: nat): State
    requires AffinityOk(s) && c in s.cpus
    decreases |s.cpus[c].migq|
  {
    if s.faulted || s.cpus[c].migq == [] then s
    else
      HandledFrame(s, c);
      HandledAll(Handled(s, c), c)
  }

  /** Every request do_migrate acts on names a thread that has not left the queue. */
  predicate RequestsOk(s: State, c: nat)
    requires AffinityOk(s) && c in s.cpus
    decreases |s.cpus[c].migq|
  {
    s.faulted || s.cpus[c].migq == [] ||
    (HandledFrame(s, c);
     var t := s.cpus[c].migq[0];
     (Target(s, c, t).Some? ==> t in s.cpus[c].runq) && RequestsOk(Handled(s, c), c))
  }

  lemma {:induction false} HandledAllOk(s: State, c: nat)
    requires AffinityOk(s) && c in s.cpus && Ok(s) && s.cpus[c].current.None?
    ensures Ok(HandledAll(s, c)) <==> RequestsOk(s, c)
    ensures HandledAll(s, c).faulted <==> !RequestsOk(s, c)
    decreases |s.cpus[c].migq|
  {
    if s.cpus[c].migq != [] {
      HandledFrame(s, c);
      var t := s.cpus[c].migq[0];
      if Target(s, c, t).Some? ==> t in s.cpus[c].runq {
        HandleKeeps(s, c);
        HandledAllOk(Handled(s, c), c);
      }
    }
  }

  /** Thread u is on the queues exactly where it was. */
  ghost predicate SamePlace(s: State, s': State, u: Tid) {
    s'.cpus.Keys == s.cpus.Keys && forall e :: e in s.cpus ==> (u in s'.cpus[e].runq <==> u in s.cpus[e].runq)
  }

  /** Of the requests reqs on CPU c, those acted on have moved thread u, or it is where it was. */
  ghost predicate PlacedBy(s: State, s': State, c: nat, reqs: seq<Tid>, u: Tid) {
    && s'.cpus.Keys == s.cpus.Keys
    && forall e :: e in s.cpus ==>
         (u in s'.cpus[e].runq <==> if u in reqs && Target(s, c, u).Some? then e == Target(s, c, u).value else u in s.cpus[e].runq)
  }

  lemma {:induction false} HandledOthers(s: State, c: nat, u: Tid)
    requires Ok(s) && AffinityOk(s) && c in s.cpus && s.cpus[c].migq != [] && s.cpus[c].current.None?
    requires Target(s, c, s.cpus[c].migq[0]).Some? ==> s.cpus[c].migq[0] in s.cpus[c].runq
    requires u != s.cpus[c].migq[0] || Target(s, c, u).None?
    ensures SamePlace(s, Handled(s, c), u) && Target(Handled(s, c), c, u) == Target(s, c, u)
    ensures u in s.threads <==> u in Handled(s, c).threads
  {
    var t := s.cpus[c].migq[0];
    if Target(s, c, t).Some? {
      TargetElsewhere(s, c, t);
      StillIn(s.cpus[c].runq, t, u);
    }
  }

  /** do_migrate moves every thread that asks for it and whose mask excludes the CPU, to the least CPU of the mask, and no other:
      a thread is on some queue afterwards iff it was before. */
  lemma {:induction false} MigratesAll(s: State, c: nat, u: Tid)
    requires AffinityOk(s) && c in s.cpus && Ok(s) && s.cpus[c].current.None? && RequestsOk(s, c)
    ensures var s' := HandledAll(s, c);
            if u in s.cpus[c].migq && Target(s, c, u).Some?
            then s'.cpus.Keys == s.cpus.Keys && forall e :: e in s.cpus ==> (u in s'.cpus[e].runq <==> e == Target(s, c, u).value)
            else SamePlace(s, s', u)
    decreases |s.cpus[c].migq|
  {
    if s.cpus[c].migq != [] {
      HandledFrame(s, c);
      HandleKeeps(s, c);
      var t, s1 := s.cpus[c].migq[0], Handled(s, c);
      MigratesAll(s1, c, u);
      if u != t || Target(s, c, u).None? {
        HandledOthers(s, c, u);
        assert u in s.cpus[c].migq <==> u == t || u in s.cpus[c].migq[1..];
      } else {
        HandledMoves(s, c);
      }
    }
  }

  lemma {:induction false} AllPlaced(s: State, c: nat)
    requires AffinityOk(s) && c in s.cpus && Ok(s) && s.cpus[c].current.None? && RequestsOk(s, c)
    ensures forall u :: PlacedBy(s, HandledAll(s, c), c, s.cpus[c].migq, u)
  {
    forall u ensures PlacedBy(s, HandledAll(s, c), c, s.cpus[c].migq, u) {
      MigratesAll(s, c, u);
    }
  }

  /** do_migrate empties the request queue and keeps the queues in order exactly when every request it acts on names a
      thread that has not left the queue; then each such thread is on its target and every other where it was. */
  lemma {:induction false} HandledAllExact(s: State, c: nat)
    requires AffinityOk(s) && c in s.cpus && Ok(s) && s.cpus[c].current.None?
    ensures Ok(HandledAll(s, c)) <==> RequestsOk(s, c)
    ensures HandledAll(s, c).faulted <==> !RequestsOk(s, c)
    ensures RequestsOk(s, c) ==> forall u :: PlacedBy(s, HandledAll(s, c), c, s.cpus[c].migq, u)
  {
    HandledAllOk(s, c);
    if RequestsOk(s, c) {
      AllPlaced(s, c);
    }
  }

  lemma {:induction false} HandledMoves(s: State, c: nat)
    requires Ok(s) && AffinityOk(s) && c in s.cpus && s.cpus[c].migq != [] && s.cpus[c].current.None?
    requires Target(s, c, s.cpus[c].migq[0]).Some? && s.cpus[c].migq[0] in s.cpus[c].runq
    ensures var t, s' := s.cpus[c].migq[0], Handled(s, c);
            && s'.cpus.Keys == s.cpus.Keys && Target(s', c, t).None?
            && forall e :: e in s.cpus ==> (t in s'.cpus[e].runq <==> e == Target(s, c, t).value)
  {
    var t, s' := s.cpus[c].migq[0], Handled(s, c);
    var d := Target(s, c, t).value;
    TargetElsewhere(s, c, t);
    assert QueueOk(s, c);
    WithoutIn(s.cpus[c].runq, t);
    forall e | e in s.cpus ensures t in s'.cpus[e].runq <==> e == d {
      if e != c && t in s.cpus[e].runq {
        OneQueue(s, c, e, t);
      }
    }
  }

  class Scheduler {
    var s: State

    /** The scan of schedule(): remembers the first thread that can run, stops at one being spawned. */
    method PickNext(q: seq<Tid>) returns (next: Option<Tid>)
      ensures next == Pick(s.threads, q)
    {
      next := None;
      var i := 0;
      assert q[0..] == q;
      while i < |q|
        invariant 0 <= i <= |q|
        invariant FirstSpawning(s.threads, q) == FirstSpawning(s.threads, q[i..])
        invariant FirstRunnable(s.threads, q) == if next.Some? then next else FirstRunnable(s.threads, q[i..])
      {
        var thread := q[i];
        assert q[i..][1..] == q[i + 1..];
        if Spawning(s.threads, thread) {
          return Some(thread);
        }
        if Runnable(s.threads, thread) && next.None? {
          next := Some(thread);
        }
        i := i + 1;
      }
    }

    /** schedule() up to the context switch. */
    method Schedule(c: nat)
      requires c in s.cpus && Ok(s)
      modifies this
      ensures s == Scheduled(old(s), c) && Ok(s)
    {
      ScheduleKeeps(s, c);
      assert QueueOk(s, c);
      var v := s.cpus[c];
      if v.noPreempt {
        s := s.(cpus := s.cpus[c := v.(needResched := true)]);
        return;
      }
      var exited := false;
      if v.current.Some? {
        var prev := v.current.value;
        v := v.(runq := Without(v.runq, prev), len := v.len - 1);
        exited := s.threads[prev].status == Exited;
        if !exited {
          v := v.(runq := v.runq + [prev], len := v.len + 1);
        }
      }
      var next := None;
      if !(v.needMigrate || exited) {
        next := PickNext(v.runq);
      }
      s := s.(cpus := s.cpus[c := v.(current := next)]);
    }

    /** The search for the first CPU of an affinity mask. */
    method FirstCpu(mask: set<nat>) returns (d: nat)
      ensures d == Least(mask, 0, CPU_SETSIZE)
    {
      d := 0;
      while d < CPU_SETSIZE
        invariant d <= CPU_SETSIZE && Least(mask, 0, CPU_SETSIZE) == Least(mask, d, CPU_SETSIZE)
      {
        if d in mask {
          return;
        }
        d := d + 1;
      }
    }

    /** The search for another thread of the same address space. */
    method FindVm(q: seq<Tid>, vm: nat) returns (found: bool)
      ensures found == HasVm(s.threads, q, vm)
    {
      var i := 0;
      while i < |q|
        invariant 0 <= i <= |q| && forall k :: 0 <= k < i ==> !(q[k] in s.threads && s.threads[q[k]].vm == vm)
      {
        if q[i] in s.threads && s.threads[q[i]].vm == vm {
          return true;
        }
        i := i + 1;
      }
      return false;
    }

    /** One round of do_migrate's loop. */
    method MigrateOne(c: nat, t: Tid)
      requires c in s.cpus && AffinityOk(s)
      modifies this
      ensures s == Migrated(old(s), c, t) && AffinityOk(s)
    {
      if s.faulted || t !in s.threads || s.threads[t].cpuId != c || c in s.threads[t].cpuSet {
        return;
      }
      var d := FirstCpu(s.threads[t].cpuSet);
      if d == CPU_SETSIZE {
        return;
      }
      TargetElsewhere(s, c, t);
      var v, w, vm := s.cpus[c], s.cpus[d], s.threads[t].vm;
      if t !in v.runq {
        s := s.(faulted := true);
        return;
      }
      v := v.(runq := Without(v.runq, t), len := v.len - 1);
      w := w.(runq := w.runq + [t], len := w.len + 1);
      var keep := FindVm(v.runq, vm);
      var mask := if keep then Cpus(s, vm) + {d} else Cpus(s, vm) - {c} + {d};
      s := State(s.cpus[c := v][d := w.(needResched := true)], s.threads[t := s.threads[t].(cpuId := d)], s.vmCpus[vm := mask], false);
    }

    /** do_migrate on CPU c, run by its idle thread; `acked` are the requests whose makers it wakes up. Every request is
        acknowledged once, in order, unless one faults. */
    method DoMigrate(c: nat) returns (acked: seq<Tid>)
      requires c in s.cpus && AffinityOk(s) && Ok(s) && s.cpus[c].current.None?
      modifies this
      ensures s == HandledAll(old(s), c) && c in s.cpus
      ensures s.faulted <==> !RequestsOk(old(s), c)
      ensures !s.faulted ==> Ok(s) && s.cpus[c].migq == [] && acked == old(s).cpus[c].migq
      ensures !s.faulted ==> forall u :: PlacedBy(old(s), s, c, acked, u)
      ensures s.faulted ==> exists t :: old(s).cpus[c].migq == acked + [t] + s.cpus[c].migq
    {
      HandledAllOk(s, c);
      if RequestsOk(s, c) {
        AllPlaced(s, c);
      }
      acked := MigrateLoop(c);
    }

    /** The oldest request leaves its queue and is handled. */
    method TakeRequest(c: nat) returns (t: Tid)
      requires c in s.cpus && AffinityOk(s) && s.cpus[c].migq != []
      modifies this
      ensures CanHandle(old(s), c) && s == Handled(old(s), c) && AffinityOk(s) && c in s.cpus
      ensures [t] + s.cpus[c].migq == old(s).cpus[c].migq
    {
      var v := s.cpus[c];
      t := v.migq[0];
      HandledFrame(s, c);
      s := s.(cpus := s.cpus[c := v.(migq := v.migq[1..])]);
      MigrateOne(c, t);
    }

    method MigrateLoop(c: nat) returns (acked: seq<Tid>)
      requires c in s.cpus && AffinityOk(s) && !s.faulted
      modifies this
      ensures s == HandledAll(old(s), c) && c in s.cpus
      ensures !s.faulted ==> s.cpus[c].migq == [] && acked == old(s).cpus[c].migq
      ensures s.faulted ==> exists t :: old(s).cpus[c].migq == acked + [t] + s.cpus[c].migq
    {
      acked := [];
      while s.cpus[c].migq != []
        invariant c in s.cpus && AffinityOk(s) && HandledAll(s, c) == HandledAll(old(s), c) && !s.faulted
        invariant acked + s.cpus[c].migq == old(s).cpus[c].migq
        decreases |s.cpus[c].migq|
      {
        ghost var rest := s.cpus[c].migq[1..];
        var t := TakeRequest(c);
        assert acked + [t] + rest == acked + ([t] + rest);
        if s.faulted {
          return;
        }
        acked := acked + [t];
      }
    }

    /** The idle loop's turn on CPU c: the requests are handled if the flag is set, and the flag is cleared. */
    method IdleTurn(c: nat) returns (acked: seq<Tid>)
      requires c in s.cpus && AffinityOk(s) && Ok(s) && s.cpus[c].current.None?
      modifies this
      ensures s.faulted <==> old(s).cpus[c].needMigrate && !RequestsOk(old(s), c)
      ensures !s.faulted ==> Ok(s) && c in s.cpus && !s.cpus[c].needMigrate && acked + s.cpus[c].migq == old(s).cpus[c].migq
      ensures !s.faulted && old(s).cpus[c].needMigrate ==> s.cpus[c].migq == []
    {
      acked := [];
      if s.cpus[c].needMigrate {
        acked := DoMigrate(c);
        if s.faulted {
          return;
        }
        ghost var s1 := s;
        s := s.(cpus := s.cpus[c := s.cpus[c].(needMigrate := false)]);
        UpdateKeeps(s1, s);
      }
    }
  }
}
