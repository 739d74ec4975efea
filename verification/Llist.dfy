/** The lock-less list of kernel/llist.c: many llist_add_batch callers and one llist_del_first caller, interleaved at single
    loads, stores and compare-and-exchanges; and the in-place reversal of a chain. */
module Llist {
  import opened Seqs

  type Ptr = nat
  type Tid = nat

  const NULL: Ptr := 0

  type Memory = map<Ptr, Ptr>

  function Next(m: Memory, p: Ptr): Ptr {
    if p in m then m[p] else NULL
  }

  /** Following next from p passes the nodes of c and ends at q. */
  predicate Links(m: Memory, p: Ptr, c: seq<Ptr>, q: Ptr)
    decreases |c|
  {
    if c == [] then p == q else p == c[0] && p != NULL && Links(m, Next(m, p), c[1..], q)
  }

  predicate Apart(a: seq<Ptr>, b: seq<Ptr>) {
    forall p :: p in a ==> p !in b
  }

  /** Thread states in llist_add_batch with the batch of nodes to add. */
  datatype AddPc =
    | AddIdle
    | AddLoad(batch: seq<Ptr>)
    | AddLink(batch: seq<Ptr>, seen: Ptr)
    | AddSwap(batch: seq<Ptr>, seen: Ptr)
    | AddDone(wasEmpty: bool)

  /** States of the one llist_del_first caller. */
  datatype DelPc = DelIdle | DelLoad | DelTest(entry: Ptr) | DelRead(entry: Ptr) | DelSwap(entry: Ptr, next: Ptr) | DelDone(result: Ptr)

  /** stack, pushed and popped are auxiliary: the list's contents, and what has been added and returned so far. */
  datatype State = State(first: Ptr, m: Memory, add: map<Tid, AddPc>, del: DelPc,
                         stack: seq<Ptr>, pushed: multiset<Ptr>, popped: seq<Ptr>)

  function At(s: State, t: Tid): AddPc {
    if t in s.add then s.add[t] else AddIdle
  }

  function Batch(p: AddPc): seq<Ptr> {
    if p.AddLoad? || p.AddLink? || p.AddSwap? then p.batch else []
  }

  function Last(b: seq<Ptr>): Ptr {
    if b == [] then NULL else b[|b| - 1]
  }

  /** The caller's own linking of its batch. */
  function Linked(m: Memory, b: seq<Ptr>): Memory
    decreases |b|
  {
    if |b| < 2 then m else Linked(m, b[1..])[b[0] := b[1]]
  }

  /** The nodes of a new batch are neither on the list nor in another batch. */
  predicate Fresh(s: State, b: seq<Ptr>) {
    b != [] && NoDup(b) && NULL !in b && Apart(b, s.stack) && forall t :: t in s.add ==> Apart(b, Batch(s.add[t]))
  }

  function GoAdd(s: State, t: Tid, p: AddPc): State {
    s.(add := s.add[t := p])
  }

  function RunAdd(s: State, t: Tid): State {
    match At(s, t)
    case AddLoad(b) => GoAdd(s, t, AddLink(b, s.first))
    case AddLink(b, seen) => GoAdd(s.(m := s.m[Last(b) := seen]), t, AddSwap(b, seen))
    case AddSwap(b, seen) =>
      if s.first != seen then GoAdd(s, t, AddLoad(b))
      else if b == [] then s
      else GoAdd(s.(first := b[0], stack := b + s.stack, pushed := s.pushed + multiset(b)), t, AddDone(seen == NULL))
    case AddDone(_) => GoAdd(s, t, AddIdle)
    case AddIdle => s
  }

  function RunDel(s: State): State {
    match s.del
    case DelLoad => s.(del := DelTest(s.first))
    case DelTest(e) => s.(del := if e == NULL then DelDone(NULL) else DelRead(e))
    case DelRead(e) => s.(del := DelSwap(e, Next(s.m, e)))
    case DelSwap(e, n) =>
      if s.first != e then s.(del := DelTest(s.first))
      else s.(first := n, del := DelDone(e), stack := if s.stack == [] then [] else s.stack[1..], popped := s.popped + [e])
    case DelDone(_) => s.(del := DelIdle)
    case DelIdle => s
  }

  datatype Event = BeginAdd(t: Tid, b: seq<Ptr>) | StepAdd(t: Tid) | BeginDel | StepDel

  function Step(s: State, e: Event): State {
    match e
    case BeginAdd(t, b) => if At(s, t).AddIdle? && Fresh(s, b) then GoAdd(s.(m := Linked(s.m, b)), t, AddLoad(b)) else s
    case StepAdd(t) => RunAdd(s, t)
    case BeginDel => if s.del.DelIdle? then s.(del := DelLoad) else s
    case StepDel => RunDel(s)
  }

  function Exec(s: State, es: seq<Event>): State
    decreases |es|
  {
    if es == [] then s else Exec(Step(s, es[0]), es[1..])
  }

  predicate Init(s: State) {
    s.first == NULL && s.add == map[] && s.del == DelIdle && s.stack == [] && s.pushed == multiset{} && s.popped == []
  }

  // ---------------------------------------------------------------------------------------------- the invariant

  /** A batch under way: linked up to its last node, off the list, and about to be swapped in front of `seen`. */
  predicate BatchOk(s: State, t: Tid) {
    var p := At(s, t);
    p.AddLoad? || p.AddLink? || p.AddSwap? ==>
      && p.batch != [] && NoDup(p.batch) && NULL !in p.batch && Apart(p.batch, s.stack)
      && Links(s.m, p.batch[0], p.batch[..|p.batch| - 1], Last(p.batch))
      && (p.AddSwap? ==> Next(s.m, Last(p.batch)) == p.seen)
  }

  predicate PairOk(s: State, t: Tid, u: Tid) {
    t != u ==> Apart(Batch(At(s, t)), Batch(At(s, u)))
  }

  /** The node the deleter has in hand is still on the list, and the successor it read is still its successor. */
  predicate DelOk(s: State) {
    match s.del
    case DelTest(e) => e == NULL || e in s.stack
    case DelRead(e) => e in s.stack
    case DelSwap(e, n) => e in s.stack && Next(s.m, e) == n
    case _ => true
  }

  ghost predicate Inv(s: State) {
    && Links(s.m, s.first, s.stack, NULL) && NoDup(s.stack) && NULL !in s.stack
    && (forall t :: BatchOk(s, t)) && (forall t, u :: PairOk(s, t, u))
    && DelOk(s)
    && multiset(s.stack) + multiset(s.popped) == s.pushed
  }

  // ---------------------------------------------------------------------------------------------- chains

  /** Writes outside a chain leave it alone. */
  lemma {:induction false} LinksSame(m: Memory, m': Memory, p: Ptr, c: seq<Ptr>, q: Ptr)
    requires forall x :: x in c ==> Next(m', x) == Next(m, x)
    ensures Links(m', p, c, q) == Links(m, p, c, q)
    decreases |c|
  {
    if c != [] && p == c[0] {
      LinksSame(m, m', Next(m, p), c[1..], q);
    }
  }

  lemma {:induction false} LinksConcat(m: Memory, p: Ptr, a: seq<Ptr>, q: Ptr, b: seq<Ptr>, r: Ptr)
    requires Links(m, p, a, q) && Links(m, q, b, r)
    ensures Links(m, p, a + b, r)
    decreases |a|
  {
    if a == [] {
      assert a + b == b;
    } else {
      assert (a + b)[1..] == a[1..] + b;
      LinksConcat(m, Next(m, p), a[1..], q, b, r);
    }
  }

  lemma {:induction false} LinkedOk(m: Memory, b: seq<Ptr>)
    requires b != [] && NoDup(b) && NULL !in b
    ensures Links(Linked(m, b), b[0], b[..|b| - 1], Last(b))
    ensures forall x :: x !in b ==> Next(Linked(m, b), x) == Next(m, x)
    decreases |b|
  {
    if |b| > 1 {
      var m', c := Linked(m, b), b[1..];
      LinkedOk(m, c);
      assert c[..|c| - 1] == b[..|b| - 1][1..];
      LinksSame(Linked(m, c), m', c[0], c[..|c| - 1], Last(c));
    }
  }

  lemma {:induction false} NotLast(b: seq<Ptr>)
    requires b != [] && NoDup(b)
    ensures Last(b) !in b[..|b| - 1] && b == b[..|b| - 1] + [Last(b)]
    decreases |b|
  {
    if |b| > 1 {
      NotLast(b[1..]);
      assert b[1..][..|b| - 2] == b[..|b| - 1][1..];
    }
  }

  // ---------------------------------------------------------------------------------------------- every step keeps it

  /** Thread t's program counter and nodes of its own batch change; the list and the other batches do not notice. */
  lemma {:induction false} BatchStep(s: State, s': State, t: Tid)
    requires Inv(s) && s'.first == s.first && s'.stack == s.stack && s'.pushed == s.pushed && s'.popped == s.popped && s'.del == s.del
    requires forall u :: u != t ==> At(s', u) == At(s, u)
    requires forall x :: x !in Batch(At(s', t)) ==> Next(s'.m, x) == Next(s.m, x)
    requires BatchOk(s', t) && Apart(Batch(At(s', t)), s.stack) && forall u :: u != t ==> Apart(Batch(At(s', t)), Batch(At(s, u)))
    ensures Inv(s')
  {
    LinksSame(s.m, s'.m, s.first, s.stack, NULL);
    forall u ensures BatchOk(s', u) {
      if u != t {
        BatchUnseen(s, s', t, u);
      }
    }
    forall u, v ensures PairOk(s', u, v) {
      assert PairOk(s, u, v);
    }
  }

  lemma {:induction false} BatchUnseen(s: State, s': State, t: Tid, u: Tid)
    requires BatchOk(s, u) && s'.stack == s.stack && u != t && At(s', u) == At(s, u)
    requires forall x :: x !in Batch(At(s', t)) ==> Next(s'.m, x) == Next(s.m, x)
    requires Apart(Batch(At(s', t)), Batch(At(s, u)))
    ensures BatchOk(s', u)
  {
    var p := At(s, u);
    if p.AddLoad? || p.AddLink? || p.AddSwap? {
      var b := p.batch;
      assert forall x :: x in b ==> Next(s'.m, x) == Next(s.m, x);
      LinksSame(s.m, s'.m, b[0], b[..|b| - 1], Last(b));
      assert Last(b) in b;
    }
  }

  lemma {:induction false} BeginKeeps(s: State, t: Tid, b: seq<Ptr>)
    requires Inv(s) && At(s, t).AddIdle? && Fresh(s, b)
    ensures Inv(Step(s, BeginAdd(t, b)))
  {
    LinkedOk(s.m, b);
    BatchStep(s, Step(s, BeginAdd(t, b)), t);
  }

  lemma {:induction false} OthersApart(s: State, t: Tid)
    requires Inv(s)
    ensures forall u :: u != t ==> Apart(Batch(At(s, t)), Batch(At(s, u)))
  {
    forall u | u != t ensures Apart(Batch(At(s, t)), Batch(At(s, u))) {
      assert PairOk(s, t, u);
    }
  }

  lemma {:induction false} LoadKeeps(s: State, t: Tid, p: AddPc)
    requires Inv(s) && (p.AddIdle? || (Batch(p) == Batch(At(s, t)) != [] && (p.AddLoad? || p.AddLink?)))
    ensures Inv(GoAdd(s, t, p))
  {
    assert BatchOk(s, t);
    OthersApart(s, t);
    BatchStep(s, GoAdd(s, t, p), t);
  }

  lemma {:induction false} LinkKeeps(s: State, t: Tid)
    requires Inv(s) && At(s, t).AddLink?
    ensures Inv(RunAdd(s, t))
  {
    var p, s' := At(s, t), RunAdd(s, t);
    assert BatchOk(s, t);
    OthersApart(s, t);
    LinkLast(s.m, p.batch, p.seen);
    assert BatchOk(s', t);
    BatchStep(s, s', t);
  }

  /** Storing into the last node of a batch leaves its other links and all other nodes alone. */
  lemma {:induction false} LinkLast(m: Memory, b: seq<Ptr>, seen: Ptr)
    requires b != [] && NoDup(b) && Links(m, b[0], b[..|b| - 1], Last(b))
    ensures Links(m[Last(b) := seen], b[0], b[..|b| - 1], Last(b)) && Next(m[Last(b) := seen], Last(b)) == seen
    ensures forall x :: x !in b ==> Next(m[Last(b) := seen], x) == Next(m, x)
  {
    NotLast(b);
    LinksSame(m, m[Last(b) := seen], b[0], b[..|b| - 1], Last(b));
    assert Last(b) in b;
  }

  lemma {:induction false} AddTriesKeep(s: State, t: Tid)
    requires Inv(s) && !(At(s, t).AddSwap? && s.first == At(s, t).seen)
    ensures Inv(RunAdd(s, t)) && RunAdd(s, t).stack == s.stack
  {
    assert BatchOk(s, t);
    match At(s, t)
    case AddIdle =>
    case AddLoad(b) => LoadKeeps(s, t, AddLink(b, s.first));
    case AddLink(_, _) => LinkKeeps(s, t);
    case AddSwap(b, _) => LoadKeeps(s, t, AddLoad(b));
    case AddDone(_) => LoadKeeps(s, t, AddIdle);
  }

  /** The batch in front of the list is one chain. */
  lemma {:induction false} PushChain(s: State, t: Tid)
    requires Inv(s) && At(s, t).AddSwap? && s.first == At(s, t).seen
    ensures At(s, t).batch != []
    ensures var c := At(s, t).batch + s.stack; Links(s.m, At(s, t).batch[0], c, NULL) && NoDup(c) && NULL !in c
  {
    var b := At(s, t).batch;
    assert BatchOk(s, t);
    NotLast(b);
    assert [Last(b)][1..] == [];
    LinksConcat(s.m, b[0], b[..|b| - 1], Last(b), [Last(b)], s.first);
    LinksConcat(s.m, b[0], b, s.first, s.stack, NULL);
    NoDupAppend(b, s.stack);
  }

  lemma {:induction false} PushOthers(s: State, t: Tid, u: Tid)
    requires Inv(s) && At(s, t).AddSwap? && s.first == At(s, t).seen
    ensures BatchOk(RunAdd(s, t), u)
  {
    assert BatchOk(s, u) && PairOk(s, u, t) && BatchOk(s, t);
  }

  /** A compare-and-exchange that succeeds pushes the batch, in order, on what the list holds at that moment. */
  lemma {:induction false} PushKeeps(s: State, t: Tid)
    requires Inv(s) && At(s, t).AddSwap? && s.first == At(s, t).seen
    ensures Inv(RunAdd(s, t))
    ensures RunAdd(s, t).stack == At(s, t).batch + s.stack && At(RunAdd(s, t), t) == AddDone(s.stack == [])
  {
    var s', b := RunAdd(s, t), At(s, t).batch;
    assert BatchOk(s, t);
    PushChain(s, t);
    forall u ensures BatchOk(s', u) {
      PushOthers(s, t, u);
    }
    forall u, v ensures PairOk(s', u, v) {
      assert PairOk(s, u, v);
    }
    assert s.stack != [] ==> s.first == s.stack[0] && s.stack[0] in s.stack;
  }

  lemma {:induction false} DelFrame(s: State, d: DelPc)
    requires Inv(s) && DelOk(s.(del := d))
    ensures Inv(s.(del := d))
  {
    var s' := s.(del := d);
    forall u ensures BatchOk(s', u) {
      assert BatchOk(s, u);
    }
    forall u, v ensures PairOk(s', u, v) {
      assert PairOk(s, u, v);
    }
  }

  lemma {:induction false} FirstOnStack(s: State)
    requires Inv(s)
    ensures (s.first == NULL <==> s.stack == []) && (s.stack != [] ==> s.first == s.stack[0] && s.first in s.stack)
  {
    assert s.stack != [] ==> s.first == s.stack[0] && s.stack[0] in s.stack;
  }

  /** Steps of llist_del_first that do not pop; it comes to see an empty list only when the list is empty. */
  lemma {:induction false} DelTriesKeep(s: State)
    requires Inv(s) && !(s.del.DelSwap? && s.first == s.del.entry)
    ensures Inv(RunDel(s)) && RunDel(s).stack == s.stack
    ensures RunDel(s).del == DelTest(NULL) ==> s.stack == []
  {
    FirstOnStack(s);
    DelFrame(s, RunDel(s).del);
  }

  /** A compare-and-exchange that succeeds pops the top, and the new head is its current successor. */
  lemma {:induction false} PopKeeps(s: State)
    requires Inv(s) && s.del.DelSwap? && s.first == s.del.entry
    ensures Inv(RunDel(s))
    ensures s.stack != [] && s.del.entry == s.stack[0] && s.del.next == Next(s.m, s.first)
    ensures RunDel(s).stack == s.stack[1..] && RunDel(s).del == DelDone(s.stack[0])
  {
    var s' := RunDel(s);
    assert s.stack == [s.stack[0]] + s.stack[1..];
    forall u ensures BatchOk(s', u) {
      assert BatchOk(s, u);
    }
    forall u, v ensures PairOk(s', u, v) {
      assert PairOk(s, u, v);
    }
  }

  lemma {:induction false} StepKeeps(s: State, e: Event)
    requires Inv(s)
    ensures Inv(Step(s, e))
  {
    match e
    case BeginAdd(t, b) =>
      if At(s, t).AddIdle? && Fresh(s, b) {
        BeginKeeps(s, t, b);
      }
    case StepAdd(t) =>
      if At(s, t).AddSwap? && s.first == At(s, t).seen {
        PushKeeps(s, t);
      } else {
        AddTriesKeep(s, t);
      }
    case BeginDel =>
      forall u ensures BatchOk(Step(s, e), u) {
        assert BatchOk(s, u);
      }
      forall u, v ensures PairOk(Step(s, e), u, v) {
        assert PairOk(s, u, v);
      }
    case StepDel =>
      if s.del.DelSwap? && s.first == s.del.entry {
        PopKeeps(s);
      } else {
        DelTriesKeep(s);
      }
  }

  lemma {:induction false} ExecKeeps(s: State, es: seq<Event>)
    requires Inv(s)
    ensures Inv(Exec(s, es))
    decreases |es|
  {
    if es != [] {
      StepKeeps(s, es[0]);
      ExecKeeps(Step(s, es[0]), es[1..]);
    }
  }

  lemma {:induction false} InitInv(s: State)
    requires Init(s)
    ensures Inv(s)
  {
  }

  /** Event e pushes a batch, pops the top or leaves the stack alone, and answers as a stack would at that moment. */
  ghost predicate StackEvent(s: State, e: Event, s': State) {
    && Links(s'.m, s'.first, s'.stack, NULL)
    && if e.StepAdd? && At(s', e.t).AddDone? then
         At(s, e.t).AddSwap? && s'.stack == At(s, e.t).batch + s.stack && At(s', e.t).wasEmpty == (s.stack == [])
       else if e.StepDel? && s.del.DelSwap? && s'.del.DelDone? then
         s.stack != [] && s'.del.result == s.stack[0] && s'.stack == s.stack[1..] && s'.first == Next(s.m, s.first)
       else s'.stack == s.stack && (e.StepDel? && s'.del == DelTest(NULL) ==> s.stack == [])
  }

  /** In every run the list is a stack whose operations happen at one event each: next pointers from the head give its
      contents; what was added is what is left and what was returned; a successful compare-and-exchange pushes a batch or
      pops the top; every other event leaves it alone; and an empty result was an empty stack. */
  lemma {:induction false} AtomicStack(s0: State, es: seq<Event>, e: Event)
    requires Init(s0)
    ensures var s := Exec(s0, es);
            && Links(s.m, s.first, s.stack, NULL) && NoDup(s.stack) && multiset(s.stack) + multiset(s.popped) == s.pushed
            && StackEvent(s, e, Step(s, e))
  {
    InitInv(s0);
    ExecKeeps(s0, es);
    StackStep(Exec(s0, es), e);
  }

  lemma {:induction false} AddEvent(s: State, t: Tid)
    requires Inv(s)
    ensures StackEvent(s, StepAdd(t), RunAdd(s, t))
  {
    if At(s, t).AddSwap? && s.first == At(s, t).seen {
      PushKeeps(s, t);
    } else {
      AddTriesKeep(s, t);
    }
  }

  lemma {:induction false} DelEvent(s: State)
    requires Inv(s)
    ensures StackEvent(s, StepDel, RunDel(s))
  {
    if s.del.DelSwap? && s.first == s.del.entry {
      PopKeeps(s);
    } else {
      DelTriesKeep(s);
    }
  }

  lemma {:induction false} StackStep(s: State, e: Event)
    requires Inv(s)
    ensures StackEvent(s, e, Step(s, e))
  {
    match e
    case StepAdd(t) => AddEvent(s, t);
    case StepDel => DelEvent(s);
    case BeginAdd(_, _) => StepKeeps(s, e);
    case BeginDel => StepKeeps(s, e);
  }

  // ---------------------------------------------------------------------------------------------- whole calls

  lemma {:induction false} ExecLast(s: State, es: seq<Event>, i: nat)
    requires i < |es|
    ensures Exec(s, es[..i + 1]) == Step(Exec(s, es[..i]), es[i])
    decreases i
  {
    if i == 0 {
      assert es[..1][1..] == es[..0];
    } else {
      assert es[..i + 1][1..] == es[1..][..i] && es[..i][1..] == es[1..][..i - 1];
      ExecLast(Step(s, es[0]), es[1..], i - 1);
    }
  }

  /** The adder is in its call before every event and out of it at the end. */
  ghost predicate AddReturns(s: State, t: Tid, es: seq<Event>) {
    es != [] && (forall i :: 0 <= i < |es| ==> !At(Exec(s, es[..i]), t).AddIdle?) && At(Exec(s, es), t).AddIdle?
  }

  ghost predicate DelReturns(s: State, es: seq<Event>) {
    es != [] && (forall i :: 0 <= i < |es| ==> !Exec(s, es[..i]).del.DelIdle?) && Exec(s, es).del.DelIdle?
  }

  /** From event i of a run that leaves `wait`, the first event for which `stop` holds. */
  lemma {:induction false} Until(s: State, es: seq<Event>, i: nat, wait: State -> bool, stop: (State, Event) -> bool) returns (k: nat)
    requires i <= |es| && wait(Exec(s, es[..i])) && !wait(Exec(s, es))
    requires forall u, x {:trigger stop(u, x)} :: wait(u) && !stop(u, x) ==> wait(Step(u, x))
    ensures i <= k < |es| && wait(Exec(s, es[..k])) && stop(Exec(s, es[..k]), es[k])
    ensures forall j :: i <= j < k ==> wait(Exec(s, es[..j])) && !stop(Exec(s, es[..j]), es[j])
  {
    var w, st := (j: nat) => j <= |es| && wait(Exec(s, es[..j])), (j: nat) => j < |es| && stop(Exec(s, es[..j]), es[j]);
    forall j | i <= j < |es| && w(j) && !st(j) ensures w(j + 1) {
      ExecLast(s, es, j);
    }
    assert es[..|es|] == es;
    k := FirstStop(|es|, i, w, st);
    forall j | i <= j < k ensures wait(Exec(s, es[..j])) && !stop(Exec(s, es[..j]), es[j]) {
      assert w(j) && !st(j);
    }
  }

  predicate Adding(p: AddPc, b: seq<Ptr>) {
    (p.AddLoad? || p.AddLink? || p.AddSwap?) && p.batch == b
  }

  predicate Pushes(s: State, e: Event, t: Tid) {
    e == StepAdd(t) && At(s, t).AddSwap? && s.first == At(s, t).seen
  }

  lemma {:induction false} AddingStays(s: State, e: Event, t: Tid, b: seq<Ptr>)
    requires Adding(At(s, t), b) && !Pushes(s, e, t)
    ensures Adding(At(Step(s, e), t), b) && (e == StepAdd(t) ==> Step(s, e).stack == s.stack)
  {
  }

  lemma {:induction false} PushHappens(s: State, t: Tid, b: seq<Ptr>)
    requires Inv(s) && Adding(At(s, t), b) && Pushes(s, StepAdd(t), t)
    ensures RunAdd(s, t).stack == b + s.stack && At(RunAdd(s, t), t) == AddDone(s.stack == [])
  {
    PushKeeps(s, t);
  }

  lemma {:induction false} AddDoneStays(s: State, e: Event, t: Tid, w: bool)
    requires At(s, t) == AddDone(w)
    ensures if e == StepAdd(t) then At(Step(s, e), t).AddIdle? && Step(s, e).stack == s.stack else At(Step(s, e), t) == AddDone(w)
  {
  }

  /** What a call of llist_add_batch is: in the whole call just event k of the thread changes the stack, by putting the batch in
      front, and the answer, which the thread keeps until it returns, is whether the stack was empty then. */
  ghost predicate Added(s: State, t: Tid, b: seq<Ptr>, es: seq<Event>, k: nat) {
    && k < |es| && es[k] == StepAdd(t) && Exec(s, es[..k + 1]).stack == b + Exec(s, es[..k]).stack
    && (forall j :: k < j < |es| ==> At(Exec(s, es[..j]), t) == AddDone(Exec(s, es[..k]).stack == []))
    && (forall i :: 0 <= i < |es| && i != k && es[i] == StepAdd(t) ==> Exec(s, es[..i + 1]).stack == Exec(s, es[..i]).stack)
  }

  lemma {:induction false} AddFinds(s: State, t: Tid, b: seq<Ptr>, es: seq<Event>) returns (k: nat)
    requires Adding(At(s, t), b) && AddReturns(s, t, es)
    ensures k < |es| && Adding(At(Exec(s, es[..k]), t), b) && Pushes(Exec(s, es[..k]), es[k], t)
    ensures forall j :: 0 <= j < k ==> Adding(At(Exec(s, es[..j]), t), b) && !Pushes(Exec(s, es[..j]), es[j], t)
  {
    var wait, stop := (u: State) => Adding(At(u, t), b), (u: State, e: Event) => Pushes(u, e, t);
    forall u, x | wait(u) && !stop(u, x) ensures wait(Step(u, x)) {
      AddingStays(u, x, t, b);
    }
    assert es[..0] == [];
    k := Until(s, es, 0, wait, stop);
  }

  lemma {:induction false} AddTries(s: State, t: Tid, b: seq<Ptr>, es: seq<Event>, k: nat)
    requires k < |es| && forall j :: 0 <= j < k ==> Adding(At(Exec(s, es[..j]), t), b) && !Pushes(Exec(s, es[..j]), es[j], t)
    ensures forall i :: 0 <= i < k && es[i] == StepAdd(t) ==> Exec(s, es[..i + 1]).stack == Exec(s, es[..i]).stack
  {
    forall i | 0 <= i < k && es[i] == StepAdd(t) ensures Exec(s, es[..i + 1]).stack == Exec(s, es[..i]).stack {
      ExecLast(s, es, i);
      AddingStays(Exec(s, es[..i]), es[i], t, b);
    }
  }

  lemma {:induction false} AddPushes(s: State, t: Tid, b: seq<Ptr>, es: seq<Event>) returns (k: nat)
    requires Inv(s) && Adding(At(s, t), b) && AddReturns(s, t, es)
    ensures k < |es| && es[k] == StepAdd(t) && Exec(s, es[..k + 1]).stack == b + Exec(s, es[..k]).stack
    ensures At(Exec(s, es[..k + 1]), t) == AddDone(Exec(s, es[..k]).stack == [])
    ensures forall i :: 0 <= i < k && es[i] == StepAdd(t) ==> Exec(s, es[..i + 1]).stack == Exec(s, es[..i]).stack
  {
    k := AddFinds(s, t, b, es);
    AddTries(s, t, b, es, k);
    ExecKeeps(s, es[..k]);
    ExecLast(s, es, k);
    PushHappens(Exec(s, es[..k]), t, b);
  }

  lemma {:induction false} AddStays(s: State, t: Tid, w: bool, es: seq<Event>, k: nat, j: nat)
    requires k <= j < |es| && At(Exec(s, es[..k]), t) == AddDone(w) && AddReturns(s, t, es)
    ensures At(Exec(s, es[..j]), t) == AddDone(w)
    decreases j
  {
    if j > k {
      AddStays(s, t, w, es, k, j - 1);
      ExecLast(s, es, j - 1);
      AddDoneStays(Exec(s, es[..j - 1]), es[j - 1], t, w);
    }
  }

  lemma {:induction false} AddLeaves(s: State, t: Tid, w: bool, es: seq<Event>, k: nat)
    requires forall j :: k <= j < |es| ==> At(Exec(s, es[..j]), t) == AddDone(w)
    ensures forall j :: k <= j < |es| && es[j] == StepAdd(t) ==> Exec(s, es[..j + 1]).stack == Exec(s, es[..j]).stack
  {
    forall j | k <= j < |es| && es[j] == StepAdd(t) ensures Exec(s, es[..j + 1]).stack == Exec(s, es[..j]).stack {
      ExecLast(s, es, j);
      AddDoneStays(Exec(s, es[..j]), es[j], t, w);
    }
  }

  lemma {:induction false} AddRests(s: State, t: Tid, w: bool, es: seq<Event>, k: nat)
    requires k <= |es| && At(Exec(s, es[..k]), t) == AddDone(w) && AddReturns(s, t, es)
    ensures forall j :: k <= j < |es| ==> At(Exec(s, es[..j]), t) == AddDone(w)
    ensures forall j :: k <= j < |es| && es[j] == StepAdd(t) ==> Exec(s, es[..j + 1]).stack == Exec(s, es[..j]).stack
  {
    forall j | k <= j < |es| ensures At(Exec(s, es[..j]), t) == AddDone(w) {
      AddStays(s, t, w, es, k, j);
    }
    AddLeaves(s, t, w, es, k);
  }

  /** In every interleaving, a call of llist_add_batch with batch b that returns is Added. */
  lemma {:induction false} AddCall(s0: State, before: seq<Event>, t: Tid, b: seq<Ptr>, es: seq<Event>) returns (k: nat)
    requires Init(s0) && At(Exec(s0, before), t).AddIdle? && Fresh(Exec(s0, before), b)
    requires AddReturns(Step(Exec(s0, before), BeginAdd(t, b)), t, es)
    ensures Added(Step(Exec(s0, before), BeginAdd(t, b)), t, b, es, k)
  {
    InitInv(s0);
    ExecKeeps(s0, before);
    StepKeeps(Exec(s0, before), BeginAdd(t, b));
    var s := Step(Exec(s0, before), BeginAdd(t, b));
    k := AddPushes(s, t, b, es);
    AddRests(s, t, Exec(s, es[..k]).stack == [], es, k + 1);
  }

  predicate Deleting(d: DelPc) {
    d.DelLoad? || (d.DelTest? && d.entry != NULL) || d.DelRead? || d.DelSwap?
  }

  /** The event that decides the result: the exchange that pops, or the load that finds the list empty. */
  predicate Decides(s: State, e: Event) {
    e == StepDel && ((s.del.DelSwap? && s.first == s.del.entry) || ((s.del.DelLoad? || s.del.DelSwap?) && s.first == NULL))
  }

  lemma {:induction false} DeletingStays(s: State, e: Event)
    requires Deleting(s.del) && !Decides(s, e)
    ensures Deleting(Step(s, e).del) && (e == StepDel ==> Step(s, e).stack == s.stack)
  {
  }

  /** The result is known: r. */
  predicate Decided(d: DelPc, r: Ptr) {
    (d == DelTest(NULL) && r == NULL) || d == DelDone(r)
  }

  lemma {:induction false} DecideHappens(s: State)
    requires Inv(s) && Deleting(s.del) && Decides(s, StepDel)
    ensures Decided(RunDel(s).del, if s.stack == [] then NULL else s.stack[0])
    ensures RunDel(s).stack == if s.stack == [] then [] else s.stack[1..]
  {
    FirstOnStack(s);
    if s.del.DelSwap? && s.first == s.del.entry {
      PopKeeps(s);
    } else {
      DelTriesKeep(s);
    }
  }

  lemma {:induction false} DecidedStays(s: State, e: Event, r: Ptr)
    requires Decided(s.del, r)
    ensures (Decided(Step(s, e).del, r) || (s.del == DelDone(r) && Step(s, e).del.DelIdle?)) && (e == StepDel ==> Step(s, e).stack == s.stack)
    ensures e == StepDel && s.del == DelDone(r) ==> Step(s, e).del.DelIdle?
  {
  }

  /** What a call of llist_del_first is: in the whole call just event k of the deleter can change the stack; it takes the top off
      and the call returns it, or finds the stack empty and the call returns NULL. */
  ghost predicate Deleted(s: State, es: seq<Event>, k: nat) {
    && k < |es| && es[k] == StepDel
    && Exec(s, es[..k + 1]).stack == (if Exec(s, es[..k]).stack == [] then [] else Exec(s, es[..k]).stack[1..])
    && Exec(s, es[..|es| - 1]).del == DelDone(if Exec(s, es[..k]).stack == [] then NULL else Exec(s, es[..k]).stack[0])
    && (forall i :: 0 <= i < |es| && i != k && es[i] == StepDel ==> Exec(s, es[..i + 1]).stack == Exec(s, es[..i]).stack)
  }

  lemma {:induction false} DelDecides(s: State, es: seq<Event>) returns (k: nat)
    requires Inv(s) && Deleting(s.del) && DelReturns(s, es)
    ensures k < |es| && es[k] == StepDel
    ensures Exec(s, es[..k + 1]).stack == (if Exec(s, es[..k]).stack == [] then [] else Exec(s, es[..k]).stack[1..])
    ensures Decided(Exec(s, es[..k + 1]).del, if Exec(s, es[..k]).stack == [] then NULL else Exec(s, es[..k]).stack[0])
    ensures forall i :: 0 <= i < k && es[i] == StepDel ==> Exec(s, es[..i + 1]).stack == Exec(s, es[..i]).stack
  {
    var wait, stop := (u: State) => Deleting(u.del), (u: State, e: Event) => Decides(u, e);
    forall u, x | wait(u) && !stop(u, x) ensures wait(Step(u, x)) {
      DeletingStays(u, x);
    }
    assert es[..0] == [];
    k := Until(s, es, 0, wait, stop);
    forall i | 0 <= i < k && es[i] == StepDel ensures Exec(s, es[..i + 1]).stack == Exec(s, es[..i]).stack {
      ExecLast(s, es, i);
      DeletingStays(Exec(s, es[..i]), es[i]);
    }
    ExecKeeps(s, es[..k]);
    ExecLast(s, es, k);
    DecideHappens(Exec(s, es[..k]));
  }

  lemma {:induction false} DelOver(s: State, r: Ptr, es: seq<Event>)
    requires es != [] && Decided(Exec(s, es[..|es| - 1]).del, r) && DelReturns(s, es)
    ensures Exec(s, es[..|es| - 1]).del == DelDone(r)
  {
    ExecLast(s, es, |es| - 1);
    assert es[..|es|] == es;
    DecidedStays(Exec(s, es[..|es| - 1]), es[|es| - 1], r);
  }

  lemma {:induction false} DelStays(s: State, r: Ptr, es: seq<Event>, k: nat, j: nat)
    requires k <= j < |es| && Decided(Exec(s, es[..k]).del, r) && DelReturns(s, es)
    ensures Decided(Exec(s, es[..j]).del, r)
    decreases j
  {
    if j > k {
      DelStays(s, r, es, k, j - 1);
      ExecLast(s, es, j - 1);
      DecidedStays(Exec(s, es[..j - 1]), es[j - 1], r);
    }
  }

  lemma {:induction false} DelLeaves(s: State, r: Ptr, es: seq<Event>, k: nat)
    requires forall j :: k <= j < |es| ==> Decided(Exec(s, es[..j]).del, r)
    ensures forall j :: k <= j < |es| && es[j] == StepDel ==> Exec(s, es[..j + 1]).stack == Exec(s, es[..j]).stack
  {
    forall j | k <= j < |es| && es[j] == StepDel ensures Exec(s, es[..j + 1]).stack == Exec(s, es[..j]).stack {
      ExecLast(s, es, j);
      DecidedStays(Exec(s, es[..j]), es[j], r);
    }
  }

  lemma {:induction false} DelRests(s: State, r: Ptr, es: seq<Event>, k: nat)
    requires k <= |es| && Decided(Exec(s, es[..k]).del, r) && DelReturns(s, es)
    ensures Exec(s, es[..|es| - 1]).del == DelDone(r)
    ensures forall j :: k <= j < |es| && es[j] == StepDel ==> Exec(s, es[..j + 1]).stack == Exec(s, es[..j]).stack
  {
    assert es[..|es|] == es;
    forall j | k <= j < |es| ensures Decided(Exec(s, es[..j]).del, r) {
      DelStays(s, r, es, k, j);
    }
    DelLeaves(s, r, es, k);
    DelOver(s, r, es);
  }

  /** In every interleaving, a call of llist_del_first that returns is Deleted. */
  lemma {:induction false} DelCall(s0: State, before: seq<Event>, es: seq<Event>) returns (k: nat)
    requires Init(s0) && Exec(s0, before).del.DelIdle? && DelReturns(Step(Exec(s0, before), BeginDel), es)
    ensures Deleted(Step(Exec(s0, before), BeginDel), es, k)
  {
    InitInv(s0);
    ExecKeeps(s0, before);
    StepKeeps(Exec(s0, before), BeginDel);
    var s := Step(Exec(s0, before), BeginDel);
    k := DelDecides(s, es);
    var r := if Exec(s, es[..k]).stack == [] then NULL else Exec(s, es[..k]).stack[0];
    DelRests(s, r, es, k + 1);
  }

  /** How many steps an adder has left while no other thread makes one. */
  function AddLeft(s: State, t: Tid): nat {
    match At(s, t)
    case AddIdle => 0
    case AddDone(_) => 1
    case AddSwap(_, seen) => if s.first == seen then 2 else 5
    case AddLink(_, seen) => if s.first == seen then 3 else 6
    case AddLoad(_) => 4
  }

  function DelLeft(s: State): nat {
    match s.del
    case DelIdle => 0
    case DelDone(_) => 1
    case DelSwap(e, _) => if s.first == e then 2 else 5
    case DelRead(e) => if s.first == e then 3 else 6
    case DelTest(e) => if e == NULL then 2 else if s.first == e then 4 else 7
    case DelLoad => 5
  }

  lemma {:induction false} AddNearer(s: State, t: Tid)
    requires !At(s, t).AddIdle? && (At(s, t).AddDone? || Batch(At(s, t)) != [])
    ensures AddLeft(RunAdd(s, t), t) < AddLeft(s, t)
    ensures At(RunAdd(s, t), t).AddIdle? || At(RunAdd(s, t), t).AddDone? || Batch(At(RunAdd(s, t), t)) != []
  {
  }

  lemma {:induction false} DelNearer(s: State)
    requires !s.del.DelIdle?
    ensures DelLeft(RunDel(s)) < DelLeft(s)
  {
  }

  /** Whatever the other threads have done, an adder that runs alone returns, in 6 steps at most. */
  lemma {:induction false} AddAlone(s: State, t: Tid) returns (es: seq<Event>)
    requires Inv(s)
    ensures |es| <= 6 && (forall e :: e in es ==> e == StepAdd(t)) && At(Exec(s, es), t).AddIdle?
  {
    assert BatchOk(s, t);
    es := AddSteps(s, t);
  }

  lemma {:induction false} AddSteps(s: State, t: Tid) returns (es: seq<Event>)
    requires At(s, t).AddIdle? || At(s, t).AddDone? || Batch(At(s, t)) != []
    ensures |es| <= AddLeft(s, t) && (forall e :: e in es ==> e == StepAdd(t)) && At(Exec(s, es), t).AddIdle?
    decreases AddLeft(s, t)
  {
    es := [];
    if !At(s, t).AddIdle? {
      AddNearer(s, t);
      es := AddSteps(RunAdd(s, t), t);
      assert ([StepAdd(t)] + es)[1..] == es;
      es := [StepAdd(t)] + es;
    }
  }

  /** So does the deleter, in 7. */
  lemma {:induction false} DelAlone(s: State) returns (es: seq<Event>)
    ensures |es| <= DelLeft(s) <= 7 && (forall e :: e in es ==> e == StepDel) && Exec(s, es).del.DelIdle?
    decreases DelLeft(s)
  {
    es := [];
    if !s.del.DelIdle? {
      DelNearer(s);
      es := DelAlone(RunDel(s));
      assert ([StepDel] + es)[1..] == es;
      es := [StepDel] + es;
    }
  }

  // ---------------------------------------------------------------------------------------------- reversal

  /** d holds the nodes of c back to front. */
  ghost predicate BackToFront(c: seq<Ptr>, d: seq<Ptr>) {
    |d| == |c| && forall k :: 0 <= k < |c| ==> d[k] == c[|c| - 1 - k]
  }

  class Nodes {
    var m: Memory

    /** llist_reverse_order on the chain c that starts at head: the chain d starts at the new head. */
    method ReverseOrder(head: Ptr, ghost c: seq<Ptr>) returns (newHead: Ptr, ghost d: seq<Ptr>)
      requires Links(m, head, c, NULL) && NoDup(c)
      modifies this
      ensures Links(m, newHead, d, NULL) && BackToFront(c, d)
      ensures forall x :: x !in c ==> Next(m, x) == old(Next(m, x))
    {
      newHead, d := NULL, [];
      var p := head;
      ghost var i, todo := 0, c;
      while p != NULL
        invariant 0 <= i <= |c| && todo == c[i..] && BackToFront(c[..i], d)
        invariant Links(m, p, todo, NULL) && Links(m, newHead, d, NULL) && NoDup(todo) && Apart(todo, d)
        invariant forall x :: x !in c ==> Next(m, x) == old(Next(m, x))
        decreases |todo|
      {
        var tmp := p;
        ghost var m0 := m;
        assert tmp == c[i];
        p := Next(m, p);
        m := m[tmp := newHead];
        LinksSame(m0, m, p, todo[1..], NULL);
        LinksSame(m0, m, newHead, d, NULL);
        newHead := tmp;
        assert ([tmp] + d)[1..] == d && c[i..][1..] == c[i + 1..];
        i, todo, d := i + 1, todo[1..], [tmp] + d;
      }
      assert c[..i] == c;
    }
  }
}
