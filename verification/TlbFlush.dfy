/** Remote TLB shootdown of kernel/mem.c as interleaved steps over one flush entry: CPUs compete for the entry's lock,
    interrupt the other CPUs of their snapshot, and wait for `pending` to reach zero. */
module TlbFlush {
  import opened Seqs

  type Cpu = nat

  const PAGE_SIZE: nat := 4096

  /** The arguments of remote_flush_tlb_array_cpumask and the snapshot of the CPU set, in ascending order. */
  datatype Req = Req(addr: seq<nat>, nr: int, cpus: seq<Cpu>)

  /** The initiator. */
  datatype Pc =
    | Idle
    | Locking(r: Req)
    | SetAddr(r: Req)
    | SetNr(r: Req)
    | SetPending(r: Req)
    | Loop(r: Req, i: nat)
    | Send(r: Req, i: nat)
    | Local(r: Req, i: nat)
    | Wait(r: Req)
    | Unlock(r: Req)

  /** tlb_flush_handler on a CPU, which may be an initiator as well. */
  datatype HPc = HIdle | HStart | HFlush(i: nat) | HDec

  /** Auxiliary: what a CPU has flushed since `pending` was last set to zero. */
  datatype Log = Log(all: bool, pages: set<nat>)

  datatype State = State(
    lock: Option<Cpu>,
    addr: seq<nat>,
    nr: int,
    pending: int,
    irq: set<Cpu>,
    pc: map<Cpu, Pc>,
    hnd: map<Cpu, HPc>,
    log: map<Cpu, Log>)

  function At(s: State, c: Cpu): Pc {
    if c in s.pc then s.pc[c] else Idle
  }

  function Hnd(s: State, c: Cpu): HPc {
    if c in s.hnd then s.hnd[c] else HIdle
  }

  function LogOf(s: State, c: Cpu): Log {
    if c in s.log then s.log[c] else Log(false, {})
  }

  function Page(a: nat): nat {
    a / PAGE_SIZE
  }

  /** The array behind the pointer has an element and as many as the count says; the snapshot names each CPU once. */
  predicate ReqOk(r: Req) {
    |r.addr| > 0 && r.nr <= |r.addr| && forall i, j :: 0 <= i < j < |r.cpus| ==> r.cpus[i] != r.cpus[j]
  }

  // ---------------------------------------------------------------------------------------------- the steps

  function Go(s: State, c: Cpu, p: Pc): State {
    s.(pc := s.pc[c := p])
  }

  function HGo(s: State, c: Cpu, p: HPc): State {
    s.(hnd := s.hnd[c := p])
  }

  /** flush_tlb_single */
  function FlushOne(s: State, c: Cpu, a: nat): State {
    s.(log := s.log[c := LogOf(s, c).(pages := LogOf(s, c).pages + {Page(a)})])
  }

  /** flush_tlb */
  function FlushAll(s: State, c: Cpu): State {
    s.(log := s.log[c := LogOf(s, c).(all := true)])
  }

  function Run(s: State, c: Cpu): State {
    match At(s, c)
    case Idle => s
    case Locking(r) => if s.lock.Some? then s else Go(s.(lock := Some(c)), c, SetAddr(r))
    case SetAddr(r) => Go(s.(addr := r.addr), c, SetNr(r))
    case SetNr(r) => Go(s.(nr := r.nr), c, SetPending(r))
    case SetPending(r) => Go(s.(pending := 0, log := map[]), c, Loop(r, 0))
    case Loop(r, i) =>
      if i >= |r.cpus| then Go(s, c, Local(r, 0))
      else if r.cpus[i] == c then Go(s, c, Loop(r, i + 1))
      else Go(s.(pending := s.pending + 1), c, Send(r, i))
    case Send(r, i) => if i < |r.cpus| then Go(s.(irq := s.irq + {r.cpus[i]}), c, Loop(r, i + 1)) else s
    case Local(r, i) =>
      if |s.addr| > 0 && s.addr[0] == 0 then Go(FlushAll(s, c), c, Wait(r))
      else if i < s.nr && i < |s.addr| then Go(FlushOne(s, c, s.addr[i]), c, Local(r, i + 1))
      else Go(s, c, Wait(r))
    case Wait(r) => if s.pending == 0 then Go(s, c, Unlock(r)) else s
    case Unlock(r) => Go(s.(lock := None), c, Idle)
  }

  function Handle(s: State, c: Cpu): State {
    match Hnd(s, c)
    case HIdle => if c in s.irq then HGo(s.(irq := s.irq - {c}), c, HStart) else s
    case HStart => if |s.addr| > 0 && s.addr[0] == 0 then HGo(FlushAll(s, c), c, HDec) else HGo(s, c, HFlush(0))
    case HFlush(i) =>
      if i < s.nr && i < |s.addr| then HGo(FlushOne(s, c, s.addr[i]), c, HFlush(i + 1)) else HGo(s, c, HDec)
    case HDec => HGo(s.(pending := s.pending - 1), c, HIdle)
  }

  datatype Event = Begin(c: Cpu, r: Req) | Continue(c: Cpu) | Interrupt(c: Cpu)

  function Step(s: State, e: Event): State {
    match e
    case Begin(c, r) => if At(s, c).Idle? && ReqOk(r) then Go(s, c, Locking(r)) else s
    case Continue(c) => Run(s, c)
    case Interrupt(c) => Handle(s, c)
  }

  function Exec(s: State, es: seq<Event>): State
    decreases |es|
  {
    if es == [] then s else Exec(Step(s, es[0]), es[1..])
  }

  predicate Init(s: State) {
    s.lock.None? && s.irq == {} && s.pc == map[] && s.hnd == map[]
  }

  // ---------------------------------------------------------------------------------------------- the invariant

  /** The CPUs running the handler. */
  function Active(s: State): set<Cpu> {
    set c | c in s.hnd && !s.hnd[c].HIdle?
  }

  /** The first n addresses of the request are flushed. */
  ghost predicate FlushedTo(l: Log, r: Req, n: int) {
    forall k :: 0 <= k < n && k < |r.addr| ==> Page(r.addr[k]) in l.pages
  }

  /** A CPU has flushed what the request asks for. */
  ghost predicate Covers(l: Log, r: Req) {
    |r.addr| > 0 && if r.addr[0] == 0 then l.all else FlushedTo(l, r, r.nr)
  }

  /** The CPUs interrupted once the first i of the snapshot are done. */
  predicate Sent(r: Req, i: nat, x: Cpu, c: Cpu) {
    i <= |r.cpus| && c != x && c in r.cpus[..i]
  }

  /** How far the interrupts have gone, for an initiator past SetPending. */
  function Upto(p: Pc): nat {
    match p
    case Loop(_, i) => i
    case Send(_, i) => i
    case Local(r, _) => |r.cpus|
    case Wait(r) => |r.cpus|
    case Unlock(r) => |r.cpus|
    case _ => 0
  }

  predicate Started(p: Pc) {
    p.Loop? || p.Send? || p.Local? || p.Wait? || p.Unlock?
  }

  predicate Holding(p: Pc) {
    !p.Idle? && !p.Locking?
  }

  /** No interrupt is under way and no handler runs. */
  ghost predicate Quiet(s: State) {
    s.irq == {} && forall c :: Hnd(s, c).HIdle?
  }

  /** What CPU c's handler has done of the request. */
  ghost predicate HandlerOk(s: State, r: Req, sent: bool, c: Cpu) {
    && |r.addr| > 0
    && (c in s.irq || !Hnd(s, c).HIdle? ==> sent)
    && !(c in s.irq && !Hnd(s, c).HIdle?)
    && (Hnd(s, c).HFlush? ==> r.addr[0] != 0 && FlushedTo(LogOf(s, c), r, Hnd(s, c).i))
    && (Hnd(s, c).HDec? ==> Covers(LogOf(s, c), r))
    && (sent && c !in s.irq && Hnd(s, c).HIdle? ==> Covers(LogOf(s, c), r))
  }

  /** A request being served by CPU x. */
  ghost predicate Serving(s: State, x: Cpu)
    requires Started(At(s, x))
  {
    var p := At(s, x);
    && s.addr == p.r.addr && s.nr == p.r.nr && Upto(p) <= |p.r.cpus|
    && s.pending == |s.irq| + |Active(s)| + (if p.Send? then 1 else 0)
    && (p.Send? ==> p.i < |p.r.cpus| && p.r.cpus[p.i] != x)
    && (p.Local? ==> |p.r.addr| > 0 && (p.r.addr[0] == 0 || FlushedTo(LogOf(s, x), p.r, p.i)))
    && (p.Wait? || p.Unlock? ==> Covers(LogOf(s, x), p.r))
    && (p.Unlock? ==> Quiet(s))
    && forall c :: HandlerOk(s, p.r, Sent(p.r, Upto(p), x, c), c)
  }

  ghost predicate Inv(s: State) {
    && (forall c :: ThreadOk(s, c))
    && (s.lock.None? ==> Quiet(s))
    && (s.lock.Some? ==>
          var x := s.lock.value;
          if Started(At(s, x)) then Serving(s, x)
          else Quiet(s) && (At(s, x).SetNr? || At(s, x).SetPending? ==> s.addr == At(s, x).r.addr) && (At(s, x).SetPending? ==> s.nr == At(s, x).r.nr))
  }

  predicate ThreadOk(s: State, c: Cpu) {
    && (Holding(At(s, c)) <==> s.lock == Some(c))
    && (!At(s, c).Idle? ==> ReqOk(At(s, c).r))
  }

  lemma {:induction false} InitInv(s: State)
    requires Init(s)
    ensures Inv(s)
  {
  }

  // ---------------------------------------------------------------------------------------------- handler steps

  lemma {:induction false} OnlyHolder(s: State, c: Cpu)
    requires Inv(s) && Holding(At(s, c))
    ensures s.lock == Some(c)
  {
    assert ThreadOk(s, c);
  }

  /** A handler runs only while a request is served, and on the entry that request filled in. */
  lemma {:induction false} HandlerServed(s: State, c: Cpu)
    requires Inv(s) && (c in s.irq || !Hnd(s, c).HIdle?)
    ensures s.lock.Some? && Started(At(s, s.lock.value)) && Serving(s, s.lock.value)
    ensures var p := At(s, s.lock.value); HandlerOk(s, p.r, Sent(p.r, Upto(p), s.lock.value, c), c)
  {
  }

  lemma {:induction false} ActiveGo(s: State, c: Cpu, p: HPc)
    ensures Active(HGo(s, c, p)) == if p.HIdle? then Active(s) - {c} else Active(s) + {c}
    ensures c in Active(s) <==> !Hnd(s, c).HIdle?
  {
  }

  /** A handler step, given what it does to c's own record. */
  lemma {:induction false} HandleStep(s: State, s': State, c: Cpu)
    requires Inv(s) && (c in s.irq || !Hnd(s, c).HIdle?)
    requires s'.lock == s.lock && s'.addr == s.addr && s'.nr == s.nr && s'.pc == s.pc
    requires s'.pending - |s'.irq| - |Active(s')| == s.pending - |s.irq| - |Active(s)|
    requires forall d :: d != c ==> (d in s'.irq <==> d in s.irq) && Hnd(s', d) == Hnd(s, d) && LogOf(s', d) == LogOf(s, d)
    requires FlushedMore(LogOf(s, c), LogOf(s', c))
    requires var p := At(s, s.lock.value); HandlerOk(s', p.r, Sent(p.r, Upto(p), s.lock.value, c), c)
    ensures Inv(s')
  {
    HandlerServed(s, c);
    var x := s.lock.value;
    var p := At(s, x);
    forall d ensures ThreadOk(s', d) {
      assert ThreadOk(s, d);
    }
    forall d ensures HandlerOk(s', p.r, Sent(p.r, Upto(p), x, d), d) {
      assert HandlerOk(s, p.r, Sent(p.r, Upto(p), x, d), d);
    }
    MoreCovers(LogOf(s, x), LogOf(s', x), p.r);
  }

  ghost predicate FlushedMore(l: Log, l': Log) {
    (l.all ==> l'.all) && l.pages <= l'.pages
  }

  lemma {:induction false} MoreCovers(l: Log, l': Log, r: Req)
    requires FlushedMore(l, l') || l == l'
    ensures Covers(l, r) ==> Covers(l', r)
    ensures forall n :: FlushedTo(l, r, n) ==> FlushedTo(l', r, n)
  {
  }

  lemma {:induction false} DeliverKeeps(s: State, c: Cpu)
    requires Inv(s) && Hnd(s, c).HIdle? && c in s.irq
    ensures Inv(Handle(s, c))
  {
    HandlerServed(s, c);
    ActiveGo(s, c, HStart);
    HandleStep(s, Handle(s, c), c);
  }

  lemma {:induction false} StartKeeps(s: State, c: Cpu)
    requires Inv(s) && Hnd(s, c).HStart?
    ensures Inv(Handle(s, c))
  {
    HandlerServed(s, c);
    ActiveGo(s, c, HDec);
    ActiveGo(s, c, HFlush(0));
    assert Active(Handle(s, c)) == Active(s);
    HandleStep(s, Handle(s, c), c);
  }

  lemma {:induction false} FlushKeeps(s: State, c: Cpu)
    requires Inv(s) && Hnd(s, c).HFlush?
    ensures Inv(Handle(s, c))
  {
    HandlerServed(s, c);
    assert Active(Handle(s, c)) == Active(s);
    var r := At(s, s.lock.value).r;
    if Hnd(s, c).i < |r.addr| {
      MoreFlushed(s, c, r, Hnd(s, c).i);
    }
    HandleStep(s, Handle(s, c), c);
  }

  /** The page of the next address joins the pages flushed. */
  lemma {:induction false} MoreFlushed(s: State, c: Cpu, r: Req, i: nat)
    requires FlushedTo(LogOf(s, c), r, i) && i < |r.addr|
    ensures FlushedTo(LogOf(FlushOne(s, c, r.addr[i]), c), r, i + 1)
  {
  }

  lemma {:induction false} DecKeeps(s: State, c: Cpu)
    requires Inv(s) && Hnd(s, c).HDec?
    ensures Inv(Handle(s, c))
  {
    HandlerServed(s, c);
    ActiveGo(s, c, HIdle);
    assert Active(Handle(s, c)) == Active(s) - {c};
    HandleStep(s, Handle(s, c), c);
  }

  lemma {:induction false} HandleKeeps(s: State, c: Cpu)
    requires Inv(s)
    ensures Inv(Handle(s, c))
  {
    match Hnd(s, c)
    case HIdle =>
      if c in s.irq {
        DeliverKeeps(s, c);
      }
    case HStart => StartKeeps(s, c);
    case HFlush(_) => FlushKeeps(s, c);
    case HDec => DecKeeps(s, c);
  }

  // ---------------------------------------------------------------------------------------------- initiator steps

  /** Steps before the fields are set, and Unlock: nothing is under way. */
  lemma {:induction false} QuietStep(s: State, s': State, x: Cpu)
    requires Inv(s) && Quiet(s) && s'.irq == s.irq && s'.hnd == s.hnd
    requires forall c :: c != x ==> At(s', c) == At(s, c)
    requires s.lock.None? || s.lock == Some(x)
    requires s'.lock.None? || s'.lock == Some(x)
    requires ThreadOk(s', x) && !Started(At(s', x))
    requires At(s', x).SetNr? || At(s', x).SetPending? ==> s'.addr == At(s', x).r.addr
    requires At(s', x).SetPending? ==> s'.nr == At(s', x).r.nr
    ensures Inv(s')
  {
    assert forall c :: Hnd(s', c) == Hnd(s, c);
    forall c ensures ThreadOk(s', c) {
      assert ThreadOk(s, c);
    }
  }

  /** Steps of the initiator while it serves its request. */
  lemma {:induction false} ServeStep(s: State, s': State, x: Cpu)
    requires Inv(s) && s.lock == Some(x) && s'.lock == s.lock
    requires forall c :: c != x ==> At(s', c) == At(s, c)
    requires ThreadOk(s', x) && Started(At(s', x)) && Serving(s', x)
    ensures Inv(s')
  {
    forall c ensures ThreadOk(s', c) {
      assert ThreadOk(s, c);
    }
  }

  lemma {:induction false} SetupKeeps(s: State, x: Cpu)
    requires Inv(s) && (At(s, x).Locking? || At(s, x).SetAddr? || At(s, x).SetNr? || At(s, x).Unlock?)
    ensures Inv(Run(s, x))
  {
    assert ThreadOk(s, x);
    if !(At(s, x).Locking? && s.lock.Some?) {
      QuietStep(s, Run(s, x), x);
    }
  }

  lemma {:induction false} SetPendingKeeps(s: State, x: Cpu)
    requires Inv(s) && At(s, x).SetPending?
    ensures Inv(Run(s, x))
  {
    assert ThreadOk(s, x);
    var s' := Run(s, x);
    assert forall c :: c in s.hnd ==> Hnd(s, c).HIdle?;
    assert Active(s') == {};
    assert forall c :: Hnd(s', c) == Hnd(s, c);
    ServeStep(s, s', x);
  }

  lemma {:induction false} LoopHandlers(s: State, x: Cpu)
    requires Inv(s) && At(s, x).Loop?
    ensures var p, s' := At(s, x), Run(s, x); forall c :: HandlerOk(s', p.r, Sent(p.r, Upto(At(s', x)), x, c), c)
  {
    assert ThreadOk(s, x);
    var p, s' := At(s, x), Run(s, x);
    forall c ensures HandlerOk(s', p.r, Sent(p.r, Upto(At(s', x)), x, c), c) {
      assert HandlerOk(s, p.r, Sent(p.r, p.i, x, c), c);
      if p.i < |p.r.cpus| {
        assert p.r.cpus[..p.i + 1] == p.r.cpus[..p.i] + [p.r.cpus[p.i]];
      }
    }
  }

  /** Nothing but x's program counter changes, or pending with it. */
  lemma {:induction false} LoopKeeps(s: State, x: Cpu)
    requires Inv(s) && At(s, x).Loop?
    ensures Inv(Run(s, x))
  {
    assert ThreadOk(s, x);
    var s' := Run(s, x);
    assert Active(s') == Active(s);
    LoopHandlers(s, x);
    ServeStep(s, s', x);
  }

  lemma {:induction false} SendHandler(s: State, x: Cpu, c: Cpu)
    requires At(s, x).Send? && ReqOk(At(s, x).r) && At(s, x).i < |At(s, x).r.cpus| && At(s, x).r.cpus[At(s, x).i] != x
    requires var p := At(s, x); HandlerOk(s, p.r, Sent(p.r, p.i, x, c), c)
    ensures var p, s' := At(s, x), Run(s, x); HandlerOk(s', p.r, Sent(p.r, Upto(At(s', x)), x, c), c)
  {
    var p := At(s, x);
    assert p.r.cpus[..p.i + 1] == p.r.cpus[..p.i] + [p.r.cpus[p.i]];
    assert p.r.cpus[p.i] !in p.r.cpus[..p.i];
  }

  lemma {:induction false} SendHandlers(s: State, x: Cpu)
    requires Inv(s) && At(s, x).Send?
    ensures var p, s' := At(s, x), Run(s, x); forall c :: HandlerOk(s', p.r, Sent(p.r, Upto(At(s', x)), x, c), c)
  {
    assert ThreadOk(s, x);
    var p, s' := At(s, x), Run(s, x);
    forall c ensures HandlerOk(s', p.r, Sent(p.r, Upto(At(s', x)), x, c), c) {
      assert HandlerOk(s, p.r, Sent(p.r, p.i, x, c), c);
      SendHandler(s, x, c);
    }
  }

  /** The interrupt is sent to a CPU that has none under way. */
  lemma {:induction false} SendKeeps(s: State, x: Cpu)
    requires Inv(s) && At(s, x).Send?
    ensures Inv(Run(s, x))
    ensures At(s, x).i < |At(s, x).r.cpus| && var c := At(s, x).r.cpus[At(s, x).i]; c !in s.irq && Hnd(s, c).HIdle?
  {
    assert ThreadOk(s, x);
    var p, s' := At(s, x), Run(s, x);
    var d := p.r.cpus[p.i];
    assert Active(s') == Active(s);
    assert d !in p.r.cpus[..p.i];
    assert HandlerOk(s, p.r, Sent(p.r, p.i, x, d), d);
    SendHandlers(s, x);
    ServeStep(s, s', x);
  }

  /** The initiator's own flushing leaves the handlers alone. */
  lemma {:induction false} LocalHandlers(s: State, s': State, x: Cpu)
    requires Inv(s) && At(s, x).Local? && s'.irq == s.irq && s'.hnd == s.hnd
    requires forall c :: c != x ==> LogOf(s', c) == LogOf(s, c)
    ensures Active(s') == Active(s)
    ensures forall c :: HandlerOk(s', At(s, x).r, Sent(At(s, x).r, |At(s, x).r.cpus|, x, c), c)
  {
    assert ThreadOk(s, x);
    var r := At(s, x).r;
    forall c ensures HandlerOk(s', r, Sent(r, |r.cpus|, x, c), c) {
      assert HandlerOk(s, r, Sent(r, |r.cpus|, x, c), c);
    }
  }

  lemma {:induction false} LocalOneKeeps(s: State, x: Cpu)
    requires Inv(s) && At(s, x).Local? && At(s, x).i < s.nr && |s.addr| > 0 && s.addr[0] != 0
    ensures Inv(Run(s, x))
  {
    assert ThreadOk(s, x);
    var p, s' := At(s, x), Run(s, x);
    LocalHandlers(s, s', x);
    MoreFlushed(s, x, p.r, p.i);
    ServeStep(s, s', x);
  }

  lemma {:induction false} LocalKeeps(s: State, x: Cpu)
    requires Inv(s) && At(s, x).Local?
    ensures Inv(Run(s, x))
  {
    assert ThreadOk(s, x);
    var p, s' := At(s, x), Run(s, x);
    if p.r.addr[0] != 0 && p.i < s.nr {
      LocalOneKeeps(s, x);
    } else {
      LocalHandlers(s, s', x);
      ServeStep(s, s', x);
    }
  }

  lemma {:induction false} WaitKeeps(s: State, x: Cpu)
    requires Inv(s) && At(s, x).Wait?
    ensures Inv(Run(s, x))
  {
    assert ThreadOk(s, x);
    var p, s' := At(s, x), Run(s, x);
    if s.pending == 0 {
      DrainedQuiet(s, x);
      assert Active(s') == Active(s);
      forall c ensures HandlerOk(s', p.r, Sent(p.r, |p.r.cpus|, x, c), c) {
        assert HandlerOk(s, p.r, Sent(p.r, |p.r.cpus|, x, c), c);
      }
      assert forall c :: Hnd(s', c) == Hnd(s, c);
      ServeStep(s, s', x);
    }
  }

  lemma {:induction false} DrainedQuiet(s: State, x: Cpu)
    requires Inv(s) && At(s, x).Wait? && s.pending == 0
    ensures Quiet(s)
  {
    assert ThreadOk(s, x);
    assert s.irq == {} && Active(s) == {};
    forall c ensures Hnd(s, c).HIdle? {
      assert c !in Active(s);
    }
  }

  lemma {:induction false} RunKeeps(s: State, x: Cpu)
    requires Inv(s)
    ensures Inv(Run(s, x))
  {
    match At(s, x)
    case Idle =>
    case Locking(_) => SetupKeeps(s, x);
    case SetAddr(_) => SetupKeeps(s, x);
    case SetNr(_) => SetupKeeps(s, x);
    case SetPending(_) => SetPendingKeeps(s, x);
    case Loop(_, _) => LoopKeeps(s, x);
    case Send(_, _) => SendKeeps(s, x);
    case Local(_, _) => LocalKeeps(s, x);
    case Wait(_) => WaitKeeps(s, x);
    case Unlock(_) => SetupKeeps(s, x);
  }

  lemma {:induction false} BeginKeeps(s: State, c: Cpu, r: Req)
    requires Inv(s) && At(s, c).Idle? && ReqOk(r)
    ensures Inv(Go(s, c, Locking(r)))
  {
    var s' := Go(s, c, Locking(r));
    assert Active(s') == Active(s) && forall d :: Hnd(s', d) == Hnd(s, d) && LogOf(s', d) == LogOf(s, d);
    forall d ensures ThreadOk(s', d) {
      assert ThreadOk(s, d);
    }
    if s.lock.Some? && Started(At(s, s.lock.value)) {
      var x := s.lock.value;
      var p := At(s, x);
      forall d ensures HandlerOk(s', p.r, Sent(p.r, Upto(p), x, d), d) {
        assert HandlerOk(s, p.r, Sent(p.r, Upto(p), x, d), d);
      }
    }
  }

  lemma {:induction false} StepKeeps(s: State, e: Event)
    requires Inv(s)
    ensures Inv(Step(s, e))
  {
    match e
    case Begin(c, r) =>
      if At(s, c).Idle? && ReqOk(r) {
        BeginKeeps(s, c, r);
      }
    case Continue(c) => RunKeeps(s, c);
    case Interrupt(c) => HandleKeeps(s, c);
  }

  lemma {:induction false} ExecKeeps(s: State, es: seq<Event>)
    requires Inv(s)
    ensures Inv(Exec(s, es))
    decreases |es|
  {
    if es != [] {
      StepKeeps(s, es[0]);
      ExecKeeps(Step(s, es[0]), es[1..]);
    }
  }

  // ---------------------------------------------------------------------------------------------- in every run

  /** When an initiator has left its wait loop, it and every CPU of its snapshot have flushed what it asked for, since the
      entry's fields were set. */
  lemma {:induction false} AllFlushed(s0: State, es: seq<Event>, x: Cpu, c: Cpu)
    requires Init(s0)
    requires At(Exec(s0, es), x).Unlock?
    ensures var s := Exec(s0, es);
            var r := At(s, x).r;
            c == x || c in r.cpus ==> Covers(LogOf(s, c), r)
  {
    InitInv(s0);
    ExecKeeps(s0, es);
    var s := Exec(s0, es);
    OnlyHolder(s, x);
    var r := At(s, x).r;
    assert r.cpus[..|r.cpus|] == r.cpus;
    assert HandlerOk(s, r, Sent(r, |r.cpus|, x, c), c);
  }

  /** While an initiator waits, `pending` is the number of CPUs it interrupted whose handler has not finished; no CPU has
      a second interrupt on its way, so none is lost. */
  lemma {:induction false} PendingCounts(s0: State, es: seq<Event>, x: Cpu)
    requires Init(s0)
    requires At(Exec(s0, es), x).Loop? || At(Exec(s0, es), x).Local? || At(Exec(s0, es), x).Wait?
    ensures var s := Exec(s0, es);
            && s.pending == |s.irq + Active(s)| && s.irq !! Active(s)
            && forall c :: c in s.irq + Active(s) ==> c in At(s, x).r.cpus && c != x
  {
    InitInv(s0);
    ExecKeeps(s0, es);
    var s := Exec(s0, es);
    OnlyHolder(s, x);
    var p := At(s, x);
    forall c | c in s.irq + Active(s) ensures c in p.r.cpus && c != x && !(c in s.irq && c in Active(s)) {
      assert HandlerOk(s, p.r, Sent(p.r, Upto(p), x, c), c);
    }
  }

  /** A handler is pending or running only while some initiator holds the entry, past setting its fields, and the entry
      still holds that initiator's array: no handler reads the entry after its release. */
  lemma {:induction false} NoLateHandler(s0: State, es: seq<Event>, c: Cpu)
    requires Init(s0)
    requires var s := Exec(s0, es); c in s.irq || !Hnd(s, c).HIdle?
    ensures var s := Exec(s0, es);
            && s.lock.Some? && Started(At(s, s.lock.value)) && !At(s, s.lock.value).Unlock?
            && s.addr == At(s, s.lock.value).r.addr && s.nr == At(s, s.lock.value).r.nr
  {
    InitInv(s0);
    ExecKeeps(s0, es);
    HandlerServed(Exec(s0, es), c);
  }

  /** An interrupt is only ever sent to a CPU with none on its way and no handler running. */
  lemma {:induction false} NoDoubleInterrupt(s0: State, es: seq<Event>, x: Cpu)
    requires Init(s0) && At(Exec(s0, es), x).Send?
    ensures var s := Exec(s0, es);
            var p := At(s, x);
            p.i < |p.r.cpus| && p.r.cpus[p.i] !in s.irq && Hnd(s, p.r.cpus[p.i]).HIdle?
  {
    InitInv(s0);
    ExecKeeps(s0, es);
    SendKeeps(Exec(s0, es), x);
  }

  // ---------------------------------------------------------------------------------------------- a whole call

  /** Thread x is not idle before the last event of the run, and idle after it. */
  predicate Returns(s: State, es: seq<Event>, x: Cpu)
    decreases |es|
  {
    if es == [] then At(s, x).Idle? else !At(s, x).Idle? && Returns(Step(s, es[0]), es[1..], x)
  }

  lemma {:induction false} HandleElsewhere(s: State, c: Cpu)
    ensures Handle(s, c).pc == s.pc
  {
  }

  /** A call keeps its request, and ends with its Unlock step. */
  lemma {:induction false} CallGoesOn(s: State, e: Event, x: Cpu)
    requires !At(s, x).Idle?
    ensures var p, p' := At(s, x), At(Step(s, e), x);
            if e == Continue(x) && p.Unlock? then p'.Idle? else !p'.Idle? && p'.r == p.r
  {
    if e == Continue(x) {
      OwnGoesOn(s, x);
    } else {
      OthersElsewhere(s, e, x);
    }
  }

  lemma {:induction false} OwnGoesOn(s: State, x: Cpu)
    requires !At(s, x).Idle?
    ensures var p, p' := At(s, x), At(Run(s, x), x); if p.Unlock? then p'.Idle? else !p'.Idle? && p'.r == p.r
  {
  }

  lemma {:induction false} OthersElsewhere(s: State, e: Event, x: Cpu)
    requires !At(s, x).Idle? && e != Continue(x)
    ensures At(Step(s, e), x) == At(s, x)
  {
    if e.Interrupt? {
      HandleElsewhere(s, e.c);
    }
  }

  lemma {:induction false} LastIsUnlock(s: State, es: seq<Event>, x: Cpu)
    requires Inv(s) && !At(s, x).Idle? && Returns(s, es, x)
    ensures es != [] && Inv(Exec(s, es[..|es| - 1])) && At(Exec(s, es[..|es| - 1]), x) == Unlock(At(s, x).r)
    decreases |es|
  {
    var s' := Step(s, es[0]);
    CallGoesOn(s, es[0], x);
    StepKeeps(s, es[0]);
    if At(s', x).Idle? {
      assert es[1..] == [] && es[..0] == [];
    } else {
      LastIsUnlock(s', es[1..], x);
      assert es[..|es| - 1][1..] == es[1..][..|es[1..]| - 1];
    }
  }

  /** Every call of remote_flush_tlb_array_cpumask: when it returns, the caller and every CPU of the snapshot it was given have
      flushed every address it was given, or their whole TLB if the first address is zero, since the entry was set up for it. */
  lemma {:induction false} CallFlushes(s0: State, before: seq<Event>, x: Cpu, r: Req, es: seq<Event>, c: Cpu)
    requires Init(s0) && At(Exec(s0, before), x).Idle? && ReqOk(r)
    requires Returns(Step(Exec(s0, before), Begin(x, r)), es, x) && (c == x || c in r.cpus)
    ensures es != []
    ensures var l := LogOf(Exec(Step(Exec(s0, before), Begin(x, r)), es[..|es| - 1]), c);
            if r.addr[0] == 0 then l.all else forall k :: 0 <= k < r.nr ==> r.addr[k] / 4096 in l.pages
  {
    InitInv(s0);
    ExecKeeps(s0, before);
    var s := Exec(s0, before);
    StepKeeps(s, Begin(x, r));
    var s1 := Step(s, Begin(x, r));
    LastIsUnlock(s1, es, x);
    UnlockCovers(Exec(s1, es[..|es| - 1]), x, c);
  }

  lemma {:induction false} UnlockCovers(s: State, x: Cpu, c: Cpu)
    requires Inv(s) && At(s, x).Unlock? && (c == x || c in At(s, x).r.cpus)
    ensures ReqOk(At(s, x).r) && Covers(LogOf(s, c), At(s, x).r)
  {
    OnlyHolder(s, x);
    assert ThreadOk(s, x);
    var r := At(s, x).r;
    assert r.cpus[..|r.cpus|] == r.cpus;
    assert HandlerOk(s, r, Sent(r, |r.cpus|, x, c), c);
  }

  // ---------------------------------------------------------------------------------------------- every call can return

  function NatMax(a: int, b: int): nat
    requires b >= 0
  {
    if a < b then b else a
  }

  /** Steps left for CPU c's handler. */
  function HandlerLeft(s: State, c: Cpu): nat {
    match Hnd(s, c)
    case HIdle => if c in s.irq then |s.addr| + 4 else 0
    case HStart => |s.addr| + 3
    case HFlush(i) => NatMax(|s.addr| - i, 0) + 2
    case HDec => 1
  }

  lemma {:induction false} HandlerMoves(s: State, c: Cpu)
    requires HandlerLeft(s, c) > 0 && (Hnd(s, c).HDec? ==> c !in s.irq)
    ensures var s' := Handle(s, c);
            && HandlerLeft(s', c) < HandlerLeft(s, c) && s'.pc == s.pc && s'.lock == s.lock
            && (HandlerLeft(s, c) > 1 ==> HandlerLeft(s', c) > 0 && s'.pending == s.pending)
            && (HandlerLeft(s, c) == 1 ==> s'.pending == s.pending - 1)
  {
  }

  /** CPU c's handler, run to its end: `pending` is one less, and the initiators are where they were. */
  lemma {:induction false} HandlerFinishes(s: State, c: Cpu) returns (es: seq<Event>)
    requires Inv(s) && HandlerLeft(s, c) > 0
    ensures var s' := Exec(s, es); Inv(s') && s'.pending == s.pending - 1 && s'.pc == s.pc && s'.lock == s.lock
    ensures forall e :: e in es ==> e == Interrupt(c)
    decreases HandlerLeft(s, c)
  {
    HandlerServed(s, c);
    HandlerMoves(s, c);
    StepKeeps(s, Interrupt(c));
    var rest: seq<Event> := [];
    if HandlerLeft(s, c) > 1 {
      rest := HandlerFinishes(Handle(s, c), c);
    }
    es := [Interrupt(c)] + rest;
    assert es[1..] == rest;
  }

  /** In Wait, the next step leads to Unlock iff `pending` is zero; else it spins. */
  lemma {:induction false} WaitLeaves(s: State, x: Cpu)
    requires At(s, x).Wait?
    ensures At(Run(s, x), x) == if s.pending == 0 then Unlock(At(s, x).r) else At(s, x)
  {
  }

  /** From every state in which x waits, handler steps alone bring `pending` to zero. */
  lemma {:induction false} HandlersDrain(s: State, x: Cpu) returns (es: seq<Event>)
    requires Inv(s) && At(s, x).Wait?
    ensures var s' := Exec(s, es); Inv(s') && s'.pending == 0 && s'.pc == s.pc && s'.lock == s.lock
    ensures forall e :: e in es ==> e.Interrupt?
    decreases s.pending
  {
    OnlyHolder(s, x);
    es := [];
    if s.pending != 0 {
      var c := SomeHandler(s, x);
      var es1 := HandlerFinishes(s, c);
      var s1 := Exec(s, es1);
      var es2 := HandlersDrain(s1, x);
      es := es1 + es2;
      ExecConcat(s, es1, es2);
    }
  }

  lemma {:induction false} SomeHandler(s: State, x: Cpu) returns (c: Cpu)
    requires Inv(s) && At(s, x).Wait? && s.pending != 0
    ensures s.pending > 0 && HandlerLeft(s, c) > 0
  {
    OnlyHolder(s, x);
    assert s.pending == |s.irq| + |Active(s)|;
    if s.irq != {} {
      c :| c in s.irq;
    } else {
      c :| c in Active(s);
    }
  }

  lemma {:induction false} ExecConcat(s: State, a: seq<Event>, b: seq<Event>)
    ensures Exec(s, a + b) == Exec(Exec(s, a), b)
    decreases |a|
  {
    if a == [] {
      assert a + b == b;
    } else {
      assert (a + b)[1..] == a[1..] + b;
      ExecConcat(Step(s, a[0]), a[1..], b);
    }
  }

  /** How far a call that holds the entry has to go, short of waiting. */
  function Stage(p: Pc): nat {
    match p
    case SetAddr(_) => 7
    case SetNr(_) => 6
    case SetPending(_) => 5
    case Loop(_, _) => 4
    case Send(_, _) => 4
    case Local(_, _) => 3
    case Wait(_) => 2
    case Unlock(_) => 1
    case _ => 0
  }

  function Within(s: State, p: Pc): nat {
    match p
    case Loop(r, i) => 2 * NatMax(|r.cpus| - i, 0) + 1
    case Send(r, i) => 2 * NatMax(|r.cpus| - i, 0)
    case Local(_, i) => NatMax(|s.addr| - i, 0)
    case _ => 0
  }

  ghost predicate Closer(s: State, s': State, x: Cpu) {
    && Holding(At(s', x)) && (forall y :: y != x ==> At(s', y) == At(s, y))
    && (Stage(At(s', x)) < Stage(At(s, x)) || (Stage(At(s', x)) == Stage(At(s, x)) && Within(s', At(s', x)) < Within(s, At(s, x))))
  }

  lemma {:induction false} SetupMoves(s: State, x: Cpu)
    requires At(s, x).SetAddr? || At(s, x).SetNr? || At(s, x).SetPending?
    ensures Closer(s, Run(s, x), x)
  {
  }

  lemma {:induction false} LoopMoves(s: State, x: Cpu, r: Req, i: nat)
    requires At(s, x) == Loop(r, i)
    ensures Closer(s, Run(s, x), x)
  {
    assert i >= |r.cpus| ==> At(Run(s, x), x) == Local(r, 0);
    assert i < |r.cpus| ==> At(Run(s, x), x) == Loop(r, i + 1) || At(Run(s, x), x) == Send(r, i);
  }

  lemma {:induction false} SendMoves(s: State, x: Cpu, r: Req, i: nat)
    requires At(s, x) == Send(r, i) && i < |r.cpus|
    ensures Closer(s, Run(s, x), x)
  {
    assert At(Run(s, x), x) == Loop(r, i + 1);
  }

  lemma {:induction false} LocalMoves(s: State, x: Cpu, r: Req, i: nat)
    requires At(s, x) == Local(r, i)
    ensures Closer(s, Run(s, x), x)
  {
    assert At(Run(s, x), x) == Wait(r) || (At(Run(s, x), x) == Local(r, i + 1) && i < |s.addr|);
    assert Run(s, x).addr == s.addr;
  }

  lemma {:induction false} HolderMoves(s: State, x: Cpu)
    requires Inv(s) && Holding(At(s, x)) && !At(s, x).Wait? && !At(s, x).Unlock?
    ensures Closer(s, Run(s, x), x)
  {
    var p := At(s, x);
    if p.Loop? {
      LoopMoves(s, x, p.r, p.i);
    } else if p.Send? {
      OnlyHolder(s, x);
      SendMoves(s, x, p.r, p.i);
    } else if p.Local? {
      LocalMoves(s, x, p.r, p.i);
    } else {
      SetupMoves(s, x);
    }
  }

  /** The holder of the entry can come to its return, and leaves the entry free. */
  lemma {:induction false} HolderReturns(s: State, x: Cpu) returns (es: seq<Event>)
    requires Inv(s) && Holding(At(s, x))
    ensures var s' := Exec(s, es); Inv(s') && At(s', x).Idle? && s'.lock.None? && forall y :: y != x ==> At(s', y) == At(s, y)
    decreases Stage(At(s, x)), Within(s, At(s, x))
  {
    if At(s, x).Wait? {
      var es1 := HandlersDrain(s, x);
      var s1 := Exec(s, es1);
      WaitLeaves(s1, x);
      StepKeeps(s1, Continue(x));
      var s2 := Step(s1, Continue(x));
      var es2 := UnlockReturns(s2, x);
      assert ([Continue(x)] + es2)[1..] == es2;
      ExecConcat(s, es1, [Continue(x)] + es2);
      es := es1 + ([Continue(x)] + es2);
    } else if At(s, x).Unlock? {
      es := UnlockReturns(s, x);
    } else {
      HolderMoves(s, x);
      StepKeeps(s, Continue(x));
      var es1 := HolderReturns(Run(s, x), x);
      assert ([Continue(x)] + es1)[1..] == es1;
      es := [Continue(x)] + es1;
    }
  }

  lemma {:induction false} UnlockReturns(s: State, x: Cpu) returns (es: seq<Event>)
    requires Inv(s) && At(s, x).Unlock?
    ensures var s' := Exec(s, es); Inv(s') && At(s', x).Idle? && s'.lock.None? && forall y :: y != x ==> At(s', y) == At(s, y)
  {
    StepKeeps(s, Continue(x));
    es := [Continue(x)];
    assert es[1..] == [];
  }

  /** From every reachable state some run brings any call to its return: nobody waits for ever for lack of a step. */
  lemma {:induction false} CallCanReturn(s0: State, before: seq<Event>, x: Cpu) returns (es: seq<Event>)
    requires Init(s0)
    ensures At(Exec(Exec(s0, before), es), x).Idle?
  {
    InitInv(s0);
    ExecKeeps(s0, before);
    var s := Exec(s0, before);
    assert ThreadOk(s, x);
    es := [];
    if Holding(At(s, x)) {
      es := HolderReturns(s, x);
    } else if At(s, x).Locking? {
      es := LockingReturns(s, x);
    }
  }

  lemma {:induction false} LockingReturns(s: State, x: Cpu) returns (es: seq<Event>)
    requires Inv(s) && At(s, x).Locking?
    ensures At(Exec(s, es), x).Idle?
  {
    var es1: seq<Event> := [];
    if s.lock.Some? {
      assert ThreadOk(s, s.lock.value) && ThreadOk(s, x);
      es1 := HolderReturns(s, s.lock.value);
    }
    var s1 := Exec(s, es1);
    assert s1.lock.None? && At(s1, x) == At(s, x);
    StepKeeps(s1, Continue(x));
    var es2 := HolderReturns(Run(s1, x), x);
    assert ([Continue(x)] + es2)[1..] == es2;
    ExecConcat(s, es1, [Continue(x)] + es2);
    es := es1 + ([Continue(x)] + es2);
  }
}
