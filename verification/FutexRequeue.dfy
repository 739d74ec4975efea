/** What futex_requeue does in every interleaving: which waiters it wakes, which it moves, and where they end up. */
module FutexRequeue {

  import opened Seqs
  import opened Futex
  import opened FutexProtocol
  import opened FutexSteps
  import opened FutexWake

  /** A call as it begins its loop: its buckets, the entries of the waiters on the first chain, both chains, and the waiters on
      the first chain that match, in order. */
  datatype Move = Move(r: Req, b1: nat, b2: nat, q: Table, c1: seq<Tid>, c2: seq<Tid>, h: seq<Tid>)

  function MoveOf(s: State, r: Req): Move {
    var b1, b2 := B1(s.hash, r), B2(s.hash, r);
    var q, c1 := Entries(s, b1), Chain(s, b1);
    Move(r, b1, b2, q, c1, Chain(s, b2), Hits(q, c1, r.key1, None))
  }

  ghost predicate Proper(j: Move) {
    NoDup(j.c1) && j.h == Hits(j.q, j.c1, j.r.key1, None)
  }

  /** The first chain without its first n matches. */
  function LeftOn1(j: Move, n: nat): seq<Tid> {
    Rest(j.q, j.c1, j.r.key1, None, n)
  }

  /** How many of the first `count` matches are woken. */
  function Woke(j: Move, count: int): nat {
    Max(0, Min(count, j.r.nrWake))
  }

  /** How many matches the call handles. */
  function Total(j: Move): nat {
    Min(|j.h|, Futex.Handled(j.r.nrWake, j.r.nr2))
  }

  /** The chains once the first `count` matches are handled: within one bucket a moved waiter keeps its place. */
  function Chain1(j: Move, count: nat): seq<Tid> {
    LeftOn1(j, if j.b1 == j.b2 then Woke(j, count) else count)
  }

  function Chain2(j: Move, count: nat): seq<Tid>
    requires count <= |j.h|
  {
    if j.b1 == j.b2 then Chain1(j, count) else j.c2 + j.h[Woke(j, count)..count]
  }

  function SetOf(s: seq<Tid>): set<Tid> {
    set x | x in s
  }

  predicate CountOk(j: Move, count: int) {
    0 <= count <= |j.h| && count <= Futex.Handled(j.r.nrWake, j.r.nr2)
  }

  /** The caller stands at p, it has woken `got`, and a and b are the two chains. */
  ghost predicate Progress(j: Move, p: Pc, got: seq<Tid>, a: seq<Tid>, b: seq<Tid>) {
    var h := j.h;
    match p
    case ReqScan(r, count, done) =>
      r == j.r && CountOk(j, count) && done == SetOf(h[..count]) && got == h[..Woke(j, count)] && a == Chain1(j, count) && b == Chain2(j, count)
    case WakeClear(who, count, x) =>
      && CountOk(j, count) && 0 < count <= j.r.nrWake && who == ByRequeue(j.r, SetOf(h[..count])) && x == h[count - 1]
      && got == h[..count - 1] && a == Chain1(j, count) && b == Chain2(j, count)
    case WakeResp(who, count, x) =>
      && CountOk(j, count) && 0 < count <= j.r.nrWake && who == ByRequeue(j.r, SetOf(h[..count]))
      && got == h[..count] && a == Chain1(j, count) && b == Chain2(j, count)
    case ReqAdd(r, count, done, x) =>
      && Moves(j, r, count, done, x) && got == h[..Woke(j, count)]
      && j.b1 != j.b2 && a == Chain1(j, count) && b == Chain2(j, count - 1)
    case ReqPtr(r, count, done, x) => Moves(j, r, count, done, x) && got == h[..Woke(j, count)] && a == Chain1(j, count) && b == Chain2(j, count)
    case ReqKey(r, count, done, x) => Moves(j, r, count, done, x) && got == h[..Woke(j, count)] && a == Chain1(j, count) && b == Chain2(j, count)
    case DoubleUnlock1(r, retry) => r == j.r && !retry && got == h[..Woke(j, Total(j))] && a == Chain1(j, Total(j)) && b == Chain2(j, Total(j))
    case _ => false
  }

  /** The call is moving x, the last of the first `count` matches. */
  predicate Moves(j: Move, r: Req, count: int, done: set<Tid>, x: Tid) {
    r == j.r && CountOk(j, count) && count > 0 && count > r.nrWake && done == SetOf(j.h[..count]) && x == j.h[count - 1]
  }

  /** Of the matches, the first n are taken up and the first k of those are done with. */
  predicate Counts(j: Move, p: Pc, n: nat, k: nat) {
    match p
    case ReqScan(_, count, _) => n == count && k == n
    case WakeClear(_, count, _) => n == count && k == n
    case WakeResp(_, count, _) => n == count && k == n
    case ReqAdd(_, count, _, _) => n == count && k == n - 1
    case ReqPtr(_, count, _, _) => n == count && k == n - 1
    case ReqKey(_, count, _, _) => n == count && k == n - 1
    case _ => n == k == Total(j)
  }

  /** The waiters not yet taken up look as they did when the call began. */
  ghost predicate Untouched(j: Move, s: State, n: nat)
    requires n <= |j.h|
  {
    forall x :: x in Chain(s, j.b1) && x !in j.h[..n] ==> x in j.q && j.q[x].key == Q(s, x).key
  }

  /** Of the first n matches, those still on the second chain wait under the second key. */
  ghost predicate Rekeyed(j: Move, s: State, n: nat)
    requires n <= |j.h|
  {
    forall x :: x in Chain(s, j.b2) && x in j.h[Min(Woke(j, n), n)..n] ==> Q(s, x).key == j.r.key2
  }

  ghost predicate MoveAt(j: Move, s: State, t: Tid, got: seq<Tid>, n: nat, k: nat) {
    && B1(s.hash, j.r) == j.b1 && B2(s.hash, j.r) == j.b2 && Proper(j)
    && Progress(j, At(s, t), got, Chain(s, j.b1), Chain(s, j.b2))
    && Counts(j, At(s, t), n, k) && n <= |j.h| && k <= |j.h| && Untouched(j, s, n) && Rekeyed(j, s, k)
  }

  // ---------------------------------------------------------------------------------------------- the scan

  /** The search passes over the waiters in done: the first d matches, if they are still there, and waiters that do not match. */
  lemma {:induction false} FirstAfter(q: Table, s: State, c: seq<Tid>, key: Key, done: set<Tid>, d: nat)
    requires forall x :: x in c && x !in done ==> x in q && q[x].key == Q(s, x).key
    requires d <= |Hits(q, c, key, None)|
    requires forall i :: 0 <= i < |Hits(q, c, key, None)| ==> (Hits(q, c, key, None)[i] in done <==> i < d)
    ensures var h := Hits(q, c, key, None); First(s, c, key, None, done) == if d == |h| then None else Some(h[d])
    decreases |c|
  {
    if c != [] {
      var h, h' := Hits(q, c, key, None), Hits(q, c[1..], key, None);
      if Hit(q, c[0], key, None) {
        assert h[0] == c[0] && forall i :: 0 <= i < |h'| ==> h'[i] == h[i + 1];
        if d > 0 {
          FirstAfter(q, s, c[1..], key, done, d - 1);
        }
      } else {
        assert h == h';
        FirstAfter(q, s, c[1..], key, done, d);
      }
    }
  }

  lemma {:induction false} WokeNext(j: Move, count: int)
    requires 0 <= count
    ensures count + 1 <= j.r.nrWake ==> Woke(j, count) == count && Woke(j, count + 1) == count + 1
    ensures count + 1 > j.r.nrWake ==> Woke(j, count + 1) == Woke(j, count) <= count
  {
  }

  lemma {:induction false} SetNext(h: seq<Tid>, n: nat)
    requires n < |h|
    ensures SetOf(h[..n]) + {h[n]} == SetOf(h[..n + 1])
  {
    assert h[..n + 1] == h[..n] + [h[n]];
  }

  lemma {:induction false} DistinctFrom(h: seq<Tid>, n: nat, i: nat)
    requires NoDup(h) && n <= |h| && i < |h|
    ensures h[i] in h[..n] <==> i < n
  {
    assert h == h[..n] + h[n..];
    NoDupAppend(h[..n], h[n..]);
    if i < n {
      assert h[..n][i] == h[i];
    } else {
      assert h[n..][i - n] == h[i];
    }
  }

  /** Of the matches from `off` on, those among the first `count` are the first count - off. */
  lemma {:induction false} DoneFirst(h: seq<Tid>, off: nat, count: nat, done: set<Tid>)
    requires NoDup(h) && off <= count <= |h| && done == SetOf(h[..count])
    ensures forall i :: 0 <= i < |h[off..]| ==> (h[off..][i] in done <==> i < count - off)
  {
    forall i | 0 <= i < |h[off..]| ensures h[off..][i] in done <==> i < count - off {
      DistinctFrom(h, count, off + i);
      assert h[off..][i] == h[off + i];
    }
  }

  /** The scan stops at the next match. */
  lemma {:induction false} NextFound(j: Move, s: State, c: seq<Tid>, off: nat, count: nat, done: set<Tid>)
    requires Proper(j) && c == LeftOn1(j, off) && off <= count <= |j.h| && done == SetOf(j.h[..count])
    requires forall x :: x in c && x !in done ==> x in j.q && j.q[x].key == Q(s, x).key
    ensures First(s, c, j.r.key1, None, done) == if count == |j.h| then None else Some(j.h[count])
  {
    var h := j.h;
    RestHits(j.q, j.c1, j.r.key1, None, off);
    HitsIn(j.q, j.c1, j.r.key1, None);
    assert Hits(j.q, c, j.r.key1, None) == h[off..];
    DoneFirst(h, off, count, done);
    FirstAfter(j.q, s, c, j.r.key1, done, count - off);
  }

  lemma {:induction false} ScanFindsNext(j: Move, s: State, t: Tid, done: set<Tid>, got: seq<Tid>, n: nat, k: nat)
    requires MoveAt(j, s, t, got, n, k) && At(s, t) == ReqScan(j.r, n, done)
    ensures First(s, Chain(s, j.b1), j.r.key1, None, done) == if n == |j.h| then None else Some(j.h[n])
  {
    NextFound(j, s, Chain(s, j.b1), if j.b1 == j.b2 then Woke(j, n) else n, n, done);
  }

  // ---------------------------------------------------------------------------------------------- progress

  lemma {:induction false} ScanStops(j: Move, count: int, done: set<Tid>, got: seq<Tid>, a: seq<Tid>, b: seq<Tid>)
    requires Progress(j, ReqScan(j.r, count, done), got, a, b) && (count == |j.h| || count - j.r.nrWake >= j.r.nr2)
    ensures count == Total(j) && Progress(j, DoubleUnlock1(j.r, false), got, a, b)
  {
  }

  /** One match more is off the first chain. */
  lemma {:induction false} TakeNext(j: Move, count: nat)
    requires Proper(j) && count < |j.h|
    ensures Without(LeftOn1(j, count), j.h[count]) == LeftOn1(j, count + 1)
  {
    RestNext(j.q, j.c1, j.r.key1, None, count);
  }

  lemma {:induction false} ScanWakes(j: Move, count: int, done: set<Tid>, got: seq<Tid>, a: seq<Tid>, b: seq<Tid>, x: Tid)
    requires Progress(j, ReqScan(j.r, count, done), got, a, b) && Proper(j)
    requires count < |j.h| && count - j.r.nrWake < j.r.nr2 && count + 1 <= j.r.nrWake && x == j.h[count]
    ensures Progress(j, WakeClear(ByRequeue(j.r, done + {x}), count + 1, x), got, Without(a, x), if j.b1 == j.b2 then Without(a, x) else b)
  {
    WokeNext(j, count);
    SetNext(j.h, count);
    TakeNext(j, count);
    assert j.h[count..count] == j.h[count + 1..count + 1] == [];
  }

  lemma {:induction false} ScanMoves(j: Move, count: int, done: set<Tid>, got: seq<Tid>, a: seq<Tid>, b: seq<Tid>, x: Tid)
    requires Progress(j, ReqScan(j.r, count, done), got, a, b) && Proper(j) && j.b1 != j.b2
    requires count < |j.h| && count - j.r.nrWake < j.r.nr2 && count + 1 > j.r.nrWake && x == j.h[count]
    ensures Progress(j, ReqAdd(j.r, count + 1, done + {x}, x), got, Without(a, x), b)
  {
    WokeNext(j, count);
    SetNext(j.h, count);
    TakeNext(j, count);
  }

  lemma {:induction false} ScanRekeys(j: Move, count: int, done: set<Tid>, got: seq<Tid>, a: seq<Tid>, b: seq<Tid>, x: Tid)
    requires Progress(j, ReqScan(j.r, count, done), got, a, b) && j.b1 == j.b2
    requires count < |j.h| && count - j.r.nrWake < j.r.nr2 && count + 1 > j.r.nrWake && x == j.h[count]
    ensures Progress(j, ReqKey(j.r, count + 1, done + {x}, x), got, a, b)
  {
    WokeNext(j, count);
    SetNext(j.h, count);
  }

  lemma {:induction false} ClearWakes(j: Move, who: Caller, count: int, x: Tid, got: seq<Tid>, a: seq<Tid>, b: seq<Tid>)
    requires Progress(j, WakeClear(who, count, x), got, a, b)
    ensures Progress(j, WakeResp(who, count, x), got + [x], a, b)
  {
    var h := j.h;
    assert h[..count - 1] + [h[count - 1]] == h[..count];
  }

  lemma {:induction false} RespScans(j: Move, who: Caller, count: int, x: Tid, got: seq<Tid>, a: seq<Tid>, b: seq<Tid>)
    requires Progress(j, WakeResp(who, count, x), got, a, b)
    ensures Progress(j, AfterWake(who, count), got, a, b)
  {
    assert Woke(j, count) == count;
  }

  lemma {:induction false} AddMoves(j: Move, count: int, done: set<Tid>, x: Tid, got: seq<Tid>, a: seq<Tid>, b: seq<Tid>)
    requires Progress(j, ReqAdd(j.r, count, done, x), got, a, b)
    ensures Progress(j, ReqPtr(j.r, count, done, x), got, a, b + [x])
  {
    WokeNext(j, count - 1);
    var h, w := j.h, Woke(j, count);
    assert h[w..count] == h[w..count - 1] + [h[count - 1]];
    assert j.c2 + h[w..count - 1] + [x] == j.c2 + (h[w..count - 1] + [x]);
  }

  lemma {:induction false} PtrAndKey(j: Move, count: int, done: set<Tid>, x: Tid, got: seq<Tid>, a: seq<Tid>, b: seq<Tid>)
    ensures Progress(j, ReqPtr(j.r, count, done, x), got, a, b) ==> Progress(j, ReqKey(j.r, count, done, x), got, a, b)
    ensures Progress(j, ReqKey(j.r, count, done, x), got, a, b) ==> Progress(j, ReqScan(j.r, count, done), got, a, b)
  {
  }

  // ---------------------------------------------------------------------------------------------- the caller's steps

  lemma {:induction false} RunScanEnds(s: State, t: Tid, r: Req, count: int, done: set<Tid>)
    requires At(s, t) == ReqScan(r, count, done)
    requires count - r.nrWake >= r.nr2 || First(s, Chain(s, B1(s.hash, r)), r.key1, None, done).None?
    ensures Run(s, t) == Go(s, t, DoubleUnlock1(r, false))
  {
    assert Run(s, t) == RunRequeue(s, t);
  }

  lemma {:induction false} RunScanTakes(s: State, t: Tid, r: Req, count: int, done: set<Tid>, x: Tid)
    requires At(s, t) == ReqScan(r, count, done) && count - r.nrWake < r.nr2
    requires First(s, Chain(s, B1(s.hash, r)), r.key1, None, done) == Some(x)
    ensures var b1, b2, s1 := B1(s.hash, r), B2(s.hash, r), SetPlace(s, x, Held(t));
            Run(s, t) == if count + 1 <= r.nrWake then Go(Del(s1, b1, x), t, WakeClear(ByRequeue(r, done + {x}), count + 1, x))
                         else if b1 != b2 then Go(Del(s1, b1, x), t, ReqAdd(r, count + 1, done + {x}, x))
                         else Go(s1, t, ReqKey(r, count + 1, done + {x}, x))
  {
    assert Run(s, t) == RunRequeue(s, t);
  }

  lemma {:induction false} RunReqAdd(s: State, t: Tid, r: Req, count: int, done: set<Tid>, x: Tid)
    requires At(s, t) == ReqAdd(r, count, done, x)
    ensures Run(s, t) == Go(Add(s, B2(s.hash, r), x), t, ReqPtr(r, count, done, x))
  {
    assert Run(s, t) == RunRequeue(s, t);
  }

  lemma {:induction false} RunReqPtr(s: State, t: Tid, r: Req, count: int, done: set<Tid>, x: Tid)
    requires At(s, t) == ReqPtr(r, count, done, x)
    ensures Run(s, t).chain == s.chain && At(Run(s, t), t) == ReqKey(r, count, done, x)
  {
    assert Run(s, t) == RunRequeue(s, t);
  }

  lemma {:induction false} RunReqKey(s: State, t: Tid, r: Req, count: int, done: set<Tid>, x: Tid)
    requires At(s, t) == ReqKey(r, count, done, x)
    ensures Run(s, t).chain == s.chain && At(Run(s, t), t) == ReqScan(r, count, done) && Q(Run(s, t), x).key == r.key2
  {
    assert Run(s, t) == RunRequeue(s, t);
  }

  /** What the caller's steps leave alone, short of ReqKey: the keys. */
  lemma {:induction false} KeysStay(s: State, t: Tid, x: Tid)
    requires !At(s, t).ReqKey?
    ensures Q(Run(s, t), x).key == Q(s, x).key && Run(s, t).hash == s.hash
  {
    StepFrame(s, t);
  }

  lemma {:induction false} UntouchedStays(j: Move, s: State, s': State, n: nat, m: nat)
    requires n <= m <= |j.h| && Untouched(j, s, n)
    requires forall x :: x in Chain(s', j.b1) && x !in j.h[..m] ==> x in Chain(s, j.b1) && Q(s', x).key == Q(s, x).key
    ensures Untouched(j, s', m)
  {
    assert forall x :: x in j.h[..n] ==> x in j.h[..m];
  }

  lemma {:induction false} RekeyedStays(j: Move, s: State, s': State, n: nat)
    requires n <= |j.h| && Rekeyed(j, s, n)
    requires forall x :: x in Chain(s', j.b2) && x in j.h[..n] ==> x in Chain(s, j.b2) && Q(s', x).key == Q(s, x).key
    ensures Rekeyed(j, s', n)
  {
    var h, w := j.h, Min(Woke(j, n), n);
    assert forall x :: x in h[w..n] ==> x in h[..n];
  }

  /** The parts of MoveAt put together. */
  lemma {:induction false} MoveNow(j: Move, s: State, t: Tid, p: Pc, got: seq<Tid>, a: seq<Tid>, b: seq<Tid>, n: nat, k: nat)
    requires B1(s.hash, j.r) == j.b1 && B2(s.hash, j.r) == j.b2 && Proper(j)
    requires At(s, t) == p && Chain(s, j.b1) == a && Chain(s, j.b2) == b && Progress(j, p, got, a, b)
    requires Counts(j, p, n, k) && n <= |j.h| && k <= |j.h| && Untouched(j, s, n) && Rekeyed(j, s, k)
    ensures MoveAt(j, s, t, got, n, k)
  {
  }

  /** t stands at p and no key has changed. */
  ghost predicate NewPc(s: State, s': State, t: Tid, p: Pc) {
    At(s', t) == p && s'.hash == s.hash && forall y :: Q(s', y).key == Q(s, y).key
  }

  ghost predicate SameChains(j: Move, s: State, s': State) {
    Chain(s', j.b1) == Chain(s, j.b1) && Chain(s', j.b2) == Chain(s, j.b2)
  }

  /** Bucket b1's chain has lost x. */
  ghost predicate TookOff(j: Move, s: State, s': State, x: Tid) {
    && Chain(s', j.b1) == Without(Chain(s, j.b1), x)
    && Chain(s', j.b2) == (if j.b1 == j.b2 then Without(Chain(s, j.b1), x) else Chain(s, j.b2))
    && (forall y :: y in Chain(s', j.b1) ==> y in Chain(s, j.b1)) && (forall y :: y in Chain(s', j.b2) ==> y in Chain(s, j.b2))
  }

  lemma {:induction false} TakenOff(j: Move, s: State, t: Tid, x: Tid, p: Pc)
    requires NoDup(Chain(s, j.b1))
    ensures var s' := Go(Del(SetPlace(s, x, Held(t)), j.b1, x), t, p); NewPc(s, s', t, p) && TookOff(j, s, s', x)
  {
    WithoutIn(Chain(s, j.b1), x);
  }

  lemma {:induction false} Chain1NoDup(j: Move, count: nat)
    requires Proper(j)
    ensures NoDup(Chain1(j, count))
  {
    RestApart(j.q, j.c1, j.r.key1, None, if j.b1 == j.b2 then Woke(j, count) else count);
  }

  /** Chains that lose waiters at most, with the same keys, look the same as far as they are looked at. */
  lemma {:induction false} ViewsNext(j: Move, s: State, s': State, n: nat, m: nat, k: nat)
    requires n <= m <= |j.h| && k <= |j.h| && Untouched(j, s, n) && Rekeyed(j, s, k) && forall y :: Q(s', y).key == Q(s, y).key
    requires forall y :: y in Chain(s', j.b1) ==> y in Chain(s, j.b1)
    requires forall y :: y in Chain(s', j.b2) ==> y in Chain(s, j.b2)
    ensures Untouched(j, s', m) && Rekeyed(j, s', k)
  {
    UntouchedStays(j, s, s', n, m);
    RekeyedStays(j, s, s', k);
  }

  /** A step that changes neither chain nor key. */
  lemma {:induction false} QuietNext(j: Move, s: State, s': State, t: Tid, p: Pc, got: seq<Tid>, got': seq<Tid>, n: nat, k: nat)
    requires MoveAt(j, s, t, got, n, k) && NewPc(s, s', t, p) && SameChains(j, s, s')
    requires Counts(j, p, n, k) && Progress(j, p, got', Chain(s, j.b1), Chain(s, j.b2))
    ensures MoveAt(j, s', t, got', n, k)
  {
    ViewsNext(j, s, s', n, n, k);
    MoveNow(j, s', t, p, got', Chain(s', j.b1), Chain(s', j.b2), n, k);
  }

  lemma {:induction false} RekeyedNone(j: Move, s: State, n: nat)
    requires n <= |j.h| && n <= j.r.nrWake
    ensures Rekeyed(j, s, n)
  {
    assert Woke(j, n) == n && j.h[n..n] == [];
  }

  lemma {:induction false} WakesNext(j: Move, s: State, s': State, t: Tid, done: set<Tid>, got: seq<Tid>, n: nat, x: Tid)
    requires MoveAt(j, s, t, got, n, n) && At(s, t) == ReqScan(j.r, n, done) && n < |j.h| && x == j.h[n]
    requires n - j.r.nrWake < j.r.nr2 && n + 1 <= j.r.nrWake
    requires NewPc(s, s', t, WakeClear(ByRequeue(j.r, done + {x}), n + 1, x)) && TookOff(j, s, s', x)
    ensures MoveAt(j, s', t, got, n + 1, n + 1)
  {
    var p := WakeClear(ByRequeue(j.r, done + {x}), n + 1, x);
    ScanWakes(j, n, done, got, Chain(s, j.b1), Chain(s, j.b2), x);
    ViewsNext(j, s, s', n, n + 1, n);
    RekeyedNone(j, s', n + 1);
    MoveNow(j, s', t, p, got, Chain(s', j.b1), Chain(s', j.b2), n + 1, n + 1);
  }

  lemma {:induction false} MovesNext(j: Move, s: State, s': State, t: Tid, done: set<Tid>, got: seq<Tid>, n: nat, x: Tid)
    requires MoveAt(j, s, t, got, n, n) && At(s, t) == ReqScan(j.r, n, done) && n < |j.h| && x == j.h[n]
    requires n - j.r.nrWake < j.r.nr2 && n + 1 > j.r.nrWake && j.b1 != j.b2
    requires NewPc(s, s', t, ReqAdd(j.r, n + 1, done + {x}, x)) && TookOff(j, s, s', x)
    ensures MoveAt(j, s', t, got, n + 1, n)
  {
    var p := ReqAdd(j.r, n + 1, done + {x}, x);
    ScanMoves(j, n, done, got, Chain(s, j.b1), Chain(s, j.b2), x);
    ViewsNext(j, s, s', n, n + 1, n);
    MoveNow(j, s', t, p, got, Chain(s', j.b1), Chain(s', j.b2), n + 1, n);
  }

  lemma {:induction false} RekeysNext(j: Move, s: State, s': State, t: Tid, done: set<Tid>, got: seq<Tid>, n: nat, x: Tid)
    requires MoveAt(j, s, t, got, n, n) && At(s, t) == ReqScan(j.r, n, done) && n < |j.h| && x == j.h[n]
    requires n - j.r.nrWake < j.r.nr2 && n + 1 > j.r.nrWake && j.b1 == j.b2
    requires NewPc(s, s', t, ReqKey(j.r, n + 1, done + {x}, x)) && SameChains(j, s, s')
    ensures MoveAt(j, s', t, got, n + 1, n)
  {
    var p := ReqKey(j.r, n + 1, done + {x}, x);
    ScanRekeys(j, n, done, got, Chain(s, j.b1), Chain(s, j.b2), x);
    ViewsNext(j, s, s', n, n + 1, n);
    MoveNow(j, s', t, p, got, Chain(s', j.b1), Chain(s', j.b2), n + 1, n);
  }

  lemma {:induction false} HeldInPlace(j: Move, s: State, t: Tid, x: Tid, p: Pc)
    ensures var s' := Go(SetPlace(s, x, Held(t)), t, p); NewPc(s, s', t, p) && SameChains(j, s, s')
    ensures var s' := Go(s, t, p); NewPc(s, s', t, p) && SameChains(j, s, s')
  {
  }

  lemma {:induction false} TakeStep(j: Move, s: State, t: Tid, done: set<Tid>, got: seq<Tid>, n: nat) returns (m: nat, k: nat)
    requires MoveAt(j, s, t, got, n, n) && At(s, t) == ReqScan(j.r, n, done) && n < |j.h| && n - j.r.nrWake < j.r.nr2
    requires First(s, Chain(s, j.b1), j.r.key1, None, done) == Some(j.h[n])
    ensures MoveAt(j, Run(s, t), t, got, m, k)
  {
    var x, s' := j.h[n], Run(s, t);
    RunScanTakes(s, t, j.r, n, done, x);
    Chain1NoDup(j, n);
    m, k := n + 1, if n + 1 <= j.r.nrWake then n + 1 else n;
    if n + 1 <= j.r.nrWake {
      TakenOff(j, s, t, x, WakeClear(ByRequeue(j.r, done + {x}), n + 1, x));
      WakesNext(j, s, s', t, done, got, n, x);
    } else if j.b1 != j.b2 {
      TakenOff(j, s, t, x, ReqAdd(j.r, n + 1, done + {x}, x));
      MovesNext(j, s, s', t, done, got, n, x);
    } else {
      HeldInPlace(j, s, t, x, ReqKey(j.r, n + 1, done + {x}, x));
      RekeysNext(j, s, s', t, done, got, n, x);
    }
  }

  lemma {:induction false} ScanStep(j: Move, s: State, t: Tid, done: set<Tid>, got: seq<Tid>, n: nat) returns (m: nat, k: nat)
    requires MoveAt(j, s, t, got, n, n) && At(s, t) == ReqScan(j.r, n, done)
    ensures MoveAt(j, Run(s, t), t, got, m, k)
  {
    ScanFindsNext(j, s, t, done, got, n, n);
    if n == |j.h| || n - j.r.nrWake >= j.r.nr2 {
      m, k := n, n;
      RunScanEnds(s, t, j.r, n, done);
      ScanStops(j, n, done, got, Chain(s, j.b1), Chain(s, j.b2));
      HeldInPlace(j, s, t, t, DoubleUnlock1(j.r, false));
      QuietNext(j, s, Run(s, t), t, DoubleUnlock1(j.r, false), got, got, n, n);
    } else {
      m, k := TakeStep(j, s, t, done, got, n);
    }
  }

  lemma {:induction false} KeysAllStay(s: State, t: Tid)
    requires !At(s, t).ReqKey?
    ensures Run(s, t).hash == s.hash && forall x :: Q(Run(s, t), x).key == Q(s, x).key
  {
    forall x ensures Q(Run(s, t), x).key == Q(s, x).key {
      KeysStay(s, t, x);
    }
    KeysStay(s, t, t);
  }

  lemma {:induction false} ClearStep(j: Move, s: State, t: Tid, got: seq<Tid>, n: nat, k: nat)
    requires MoveAt(j, s, t, got, n, k) && At(s, t).WakeClear?
    ensures MoveAt(j, Run(s, t), t, got + [At(s, t).x], n, k)
  {
    var p := At(s, t);
    RunClear(s, t, p.who, p.count, p.x);
    ClearWakes(j, p.who, p.count, p.x, got, Chain(s, j.b1), Chain(s, j.b2));
    KeysAllStay(s, t);
    QuietNext(j, s, Run(s, t), t, WakeResp(p.who, p.count, p.x), got, got + [p.x], n, k);
  }

  lemma {:induction false} RespStep(j: Move, s: State, t: Tid, got: seq<Tid>, n: nat, k: nat)
    requires MoveAt(j, s, t, got, n, k) && At(s, t).WakeResp?
    ensures MoveAt(j, Run(s, t), t, got, n, k)
  {
    var p := At(s, t);
    RunResp(s, t, p.who, p.count, p.x);
    RespScans(j, p.who, p.count, p.x, got, Chain(s, j.b1), Chain(s, j.b2));
    KeysAllStay(s, t);
    QuietNext(j, s, Run(s, t), t, AfterWake(p.who, p.count), got, got, n, k);
  }

  lemma {:induction false} AddView(j: Move, s: State, s': State, n: nat, x: Tid)
    requires Proper(j) && 0 < n <= |j.h| && x == j.h[n - 1] && Rekeyed(j, s, n - 1)
    requires (forall y :: Q(s', y).key == Q(s, y).key) && Chain(s', j.b2) == Chain(s, j.b2) + [x]
    ensures Rekeyed(j, s', n - 1)
  {
    HitsIn(j.q, j.c1, j.r.key1, None);
    DistinctFrom(j.h, n - 1, n - 1);
    RekeyedStays(j, s, s', n - 1);
  }

  lemma {:induction false} AddsNext(j: Move, s: State, s': State, t: Tid, done: set<Tid>, x: Tid, got: seq<Tid>, n: nat)
    requires 0 < n && MoveAt(j, s, t, got, n, n - 1) && At(s, t) == ReqAdd(j.r, n, done, x)
    requires NewPc(s, s', t, ReqPtr(j.r, n, done, x)) && Chain(s', j.b1) == Chain(s, j.b1) && Chain(s', j.b2) == Chain(s, j.b2) + [x]
    ensures MoveAt(j, s', t, got, n, n - 1)
  {
    AddMoves(j, n, done, x, got, Chain(s, j.b1), Chain(s, j.b2));
    UntouchedStays(j, s, s', n, n);
    AddView(j, s, s', n, x);
    MoveNow(j, s', t, ReqPtr(j.r, n, done, x), got, Chain(s', j.b1), Chain(s', j.b2), n, n - 1);
  }

  lemma {:induction false} AddedTo(j: Move, s: State, t: Tid, x: Tid, p: Pc)
    requires j.b1 != j.b2
    ensures var s' := Go(Add(s, j.b2, x), t, p);
            NewPc(s, s', t, p) && Chain(s', j.b2) == Chain(s, j.b2) + [x] && Chain(s', j.b1) == Chain(s, j.b1)
  {
  }

  lemma {:induction false} AddStep(j: Move, s: State, t: Tid, done: set<Tid>, x: Tid, got: seq<Tid>, n: nat)
    requires 0 < n && MoveAt(j, s, t, got, n, n - 1) && At(s, t) == ReqAdd(j.r, n, done, x)
    ensures MoveAt(j, Run(s, t), t, got, n, n - 1)
  {
    RunReqAdd(s, t, j.r, n, done, x);
    AddedTo(j, s, t, x, ReqPtr(j.r, n, done, x));
    AddsNext(j, s, Run(s, t), t, done, x, got, n);
  }

  lemma {:induction false} PtrStep(j: Move, s: State, t: Tid, done: set<Tid>, x: Tid, got: seq<Tid>, n: nat)
    requires 0 < n && MoveAt(j, s, t, got, n, n - 1) && At(s, t) == ReqPtr(j.r, n, done, x)
    ensures MoveAt(j, Run(s, t), t, got, n, n - 1)
  {
    RunReqPtr(s, t, j.r, n, done, x);
    PtrAndKey(j, n, done, x, got, Chain(s, j.b1), Chain(s, j.b2));
    KeysAllStay(s, t);
    QuietNext(j, s, Run(s, t), t, ReqKey(j.r, n, done, x), got, got, n, n - 1);
  }

  lemma {:induction false} KeyRekeys(j: Move, s: State, s': State, n: nat, x: Tid)
    requires 0 < n <= |j.h| && n > j.r.nrWake && x == j.h[n - 1] && Rekeyed(j, s, n - 1)
    requires Chain(s', j.b2) == Chain(s, j.b2) && Q(s', x).key == j.r.key2 && forall y :: y != x ==> Q(s', y).key == Q(s, y).key
    ensures Rekeyed(j, s', n)
  {
    var h, w := j.h, Woke(j, n);
    WokeNext(j, n - 1);
    assert h[w..n] == h[w..n - 1] + [x];
    forall y | y in Chain(s', j.b2) && y in h[w..n] ensures Q(s', y).key == j.r.key2 {
      assert y == x || y in h[w..n - 1];
    }
  }

  lemma {:induction false} KeysNext(j: Move, s: State, s': State, t: Tid, done: set<Tid>, x: Tid, got: seq<Tid>, n: nat)
    requires 0 < n && MoveAt(j, s, t, got, n, n - 1) && At(s, t) == ReqKey(j.r, n, done, x)
    requires At(s', t) == ReqScan(j.r, n, done) && s'.hash == s.hash && SameChains(j, s, s')
    requires Q(s', x).key == j.r.key2 && forall y :: y != x ==> Q(s', y).key == Q(s, y).key
    ensures MoveAt(j, s', t, got, n, n)
  {
    PtrAndKey(j, n, done, x, got, Chain(s, j.b1), Chain(s, j.b2));
    assert j.h[..n][n - 1] == x;
    UntouchedStays(j, s, s', n, n);
    KeyRekeys(j, s, s', n, x);
    MoveNow(j, s', t, ReqScan(j.r, n, done), got, Chain(s', j.b1), Chain(s', j.b2), n, n);
  }

  lemma {:induction false} OthersKeep(s: State, t: Tid, x: Tid)
    requires At(s, t).ReqKey? && At(s, t).x == x
    ensures Run(s, t).hash == s.hash && forall y :: y != x ==> Q(Run(s, t), y).key == Q(s, y).key
  {
    StepFrame(s, t);
  }

  lemma {:induction false} KeyStep(j: Move, s: State, t: Tid, done: set<Tid>, x: Tid, got: seq<Tid>, n: nat)
    requires 0 < n && MoveAt(j, s, t, got, n, n - 1) && At(s, t) == ReqKey(j.r, n, done, x)
    ensures MoveAt(j, Run(s, t), t, got, n, n)
  {
    RunReqKey(s, t, j.r, n, done, x);
    OthersKeep(s, t, x);
    KeysNext(j, s, Run(s, t), t, done, x, got, n);
  }

  // ---------------------------------------------------------------------------------------------- the whole call

  /** In the loop, or right after it. */
  predicate InMove(p: Pc, r: Req) {
    || ((p.ReqScan? || p.ReqAdd? || p.ReqPtr? || p.ReqKey?) && p.r == r)
    || ((p.WakeClear? || p.WakeResp?) && p.who.ByRequeue? && p.who.r == r)
  }

  lemma {:induction false} OwnWakes(j: Move, s: State, t: Tid, got: seq<Tid>, n: nat, k: nat)
    requires MoveAt(j, s, t, got, n, k) && InMove(At(s, t), j.r) && (At(s, t).WakeClear? || At(s, t).WakeResp?)
    ensures MoveAt(j, Run(s, t), t, got + ClearedNow(s, Continue(t), t), n, k)
  {
    if At(s, t).WakeClear? {
      ClearStep(j, s, t, got, n, k);
    } else {
      RespStep(j, s, t, got, n, k);
      NothingGot(j, Run(s, t), t, got, ClearedNow(s, Continue(t), t), n, k);
    }
  }

  lemma {:induction false} OwnRequeues(j: Move, s: State, t: Tid, got: seq<Tid>, n: nat, k: nat) returns (n': nat, k': nat)
    requires MoveAt(j, s, t, got, n, k) && InMove(At(s, t), j.r) && !At(s, t).WakeClear? && !At(s, t).WakeResp?
    ensures MoveAt(j, Run(s, t), t, got, n', k')
  {
    n', k' := n, k;
    match At(s, t) {
      case ReqScan(_, _, done) => n', k' := ScanStep(j, s, t, done, got, n);
      case ReqAdd(_, _, done, x) => AddStep(j, s, t, done, x, got, n);
      case ReqPtr(_, _, done, x) => PtrStep(j, s, t, done, x, got, n);
      case ReqKey(_, _, done, x) =>
        KeyStep(j, s, t, done, x, got, n);
        k' := n;
    }
  }

  lemma {:induction false} NothingGot(j: Move, s: State, t: Tid, got: seq<Tid>, now: seq<Tid>, n: nat, k: nat)
    requires MoveAt(j, s, t, got, n, k) && now == []
    ensures MoveAt(j, s, t, got + now, n, k)
  {
    assert got + now == got;
  }

  lemma {:induction false} OwnMove(j: Move, s: State, t: Tid, got: seq<Tid>, n: nat, k: nat) returns (n': nat, k': nat)
    requires MoveAt(j, s, t, got, n, k) && InMove(At(s, t), j.r)
    ensures MoveAt(j, Run(s, t), t, got + ClearedNow(s, Continue(t), t), n', k')
  {
    if At(s, t).WakeClear? || At(s, t).WakeResp? {
      n', k' := n, k;
      OwnWakes(j, s, t, got, n, k);
    } else {
      n', k' := OwnRequeues(j, s, t, got, n, k);
      NothingGot(j, Run(s, t), t, got, ClearedNow(s, Continue(t), t), n', k');
    }
  }

  /** The caller holds both locks, and is where no event but its own step moves it. */
  lemma {:induction false} MoveHolds(j: Move, s: State, t: Tid, got: seq<Tid>, n: nat, k: nat)
    requires MoveAt(j, s, t, got, n, k)
    ensures j.b1 in Locks(s.hash, At(s, t)) && j.b2 in Locks(s.hash, At(s, t)) && !At(s, t).Idle? && !At(s, t).OpApply?
  {
  }

  lemma {:induction false} OtherMove(j: Move, s: State, e: Event, t: Tid, got: seq<Tid>, n: nat, k: nat)
    requires Inv(s) && MoveAt(j, s, t, got, n, k) && e != Continue(t)
    ensures MoveAt(j, Step(s, e), t, got, n, k)
  {
    var s' := Step(s, e);
    MoveHolds(j, s, t, got, n, k);
    HeldChain(s, e, t, j.b1);
    HeldChain(s, e, t, j.b2);
    if e.Continue? {
      OtherStep(s, e.t, t);
    } else {
      BeginElsewhere(s, e, t);
    }
    UntouchedStays(j, s, s', n, n);
    RekeyedStays(j, s, s', k);
    MoveNow(j, s', t, At(s', t), got, Chain(s', j.b1), Chain(s', j.b2), n, k);
  }

  /** Thread t makes no step outside the loop in this run. */
  predicate StaysMoving(s: State, es: seq<Event>, t: Tid, r: Req)
    decreases |es|
  {
    es == [] || ((es[0] == Continue(t) ==> InMove(At(s, t), r)) && StaysMoving(Step(s, es[0]), es[1..], t, r))
  }

  lemma {:induction false} OtherGets(j: Move, s: State, e: Event, t: Tid, got: seq<Tid>, n: nat, k: nat) returns (s': State)
    requires Inv(s) && MoveAt(j, s, t, got, n, k) && e != Continue(t)
    ensures s' == Step(s, e) && MoveAt(j, s', t, got + ClearedNow(s, e, t), n, k)
  {
    s' := Step(s, e);
    OtherMove(j, s, e, t, got, n, k);
    NothingGot(j, s', t, got, ClearedNow(s, e, t), n, k);
  }

  lemma {:induction false} OwnGets(j: Move, s: State, t: Tid, got: seq<Tid>, n: nat, k: nat) returns (s': State, n': nat, k': nat)
    requires MoveAt(j, s, t, got, n, k) && InMove(At(s, t), j.r)
    ensures s' == Step(s, Continue(t)) && MoveAt(j, s', t, got + ClearedNow(s, Continue(t), t), n', k')
  {
    s' := Run(s, t);
    n', k' := OwnMove(j, s, t, got, n, k);
  }

  lemma {:induction false} StepMove(j: Move, s: State, e: Event, t: Tid, got: seq<Tid>, n: nat, k: nat) returns (s': State, n': nat, k': nat)
    requires Inv(s) && MoveAt(j, s, t, got, n, k) && (e == Continue(t) ==> InMove(At(s, t), j.r))
    ensures s' == Step(s, e) && MoveAt(j, s', t, got + ClearedNow(s, e, t), n', k')
  {
    if e == Continue(t) {
      s', n', k' := OwnGets(j, s, t, got, n, k);
    } else {
      n', k' := n, k;
      s' := OtherGets(j, s, e, t, got, n, k);
    }
  }

  lemma {:induction false} MoveThroughout(j: Move, s: State, es: seq<Event>, t: Tid, got: seq<Tid>, n: nat, k: nat) returns (n': nat, k': nat)
    requires Inv(s) && MoveAt(j, s, t, got, n, k) && StaysMoving(s, es, t, j.r)
    ensures MoveAt(j, Exec(s, es), t, got + ClearedBy(s, es, t), n', k')
    decreases |es|
  {
    if es == [] {
      n', k' := n, k;
      assert got + [] == got;
    } else {
      var s', now := s, ClearedNow(s, es[0], t);
      s', n', k' := StepMove(j, s, es[0], t, got, n, k);
      StepKeeps(s, es[0]);
      n', k' := MoveThroughout(j, s', es[1..], t, got + now, n', k');
      Regroup(got, now, ClearedBy(s', es[1..], t));
    }
  }

  lemma {:induction false} MoveStarts(s: State, t: Tid, r: Req)
    requires Inv(s) && At(s, t) == ReqScan(r, 0, {})
    ensures MoveAt(MoveOf(s, r), s, t, [], 0, 0)
  {
    var j := MoveOf(s, r);
    RestZero(j.q, j.c1, r.key1, None);
    assert j.h[..0] == [] && j.h[0..0] == [] && SetOf([]) == {};
    assert j.c2 + [] == j.c2;
  }

  /** What is true when the loop is over: of the n matches handled the first w are woken, in order, and off the chains. The
      others are on the second chain, with its key and lock: behind the waiters there and in their order, or within one bucket in
      their old places. The matches left are where they were. */
  ghost predicate Moved(j: Move, s: State, t: Tid, got: seq<Tid>) {
    var h, n := j.h, Total(j);
    var w := Min(Woke(j, n), n);
    && At(s, t) == DoubleUnlock1(j.r, false) && got == h[..w]
    && Chain(s, j.b1) == LeftOn1(j, if j.b1 == j.b2 then w else n)
    && (j.b1 != j.b2 ==> Chain(s, j.b2) == j.c2 + h[w..n])
    && (forall x :: x in h[w..n] ==> x in Chain(s, j.b2) && Q(s, x).key == j.r.key2 && Q(s, x).lockPtr == Some(j.b2))
  }

  /** In every interleaving, futex_requeue handles the first max(0, nr_wake + nr_requeue) of the matches that were on the first
      chain when its loop began, and does to them what Moved says. */
  lemma {:induction false} RequeueCovers(s0: State, before: seq<Event>, t: Tid, r: Req, during: seq<Event>)
    requires Init(s0) && At(Exec(s0, before), t) == ReqScan(r, 0, {})
    requires StaysMoving(Exec(s0, before), during, t, r) && !InMove(At(Exec(Exec(s0, before), during), t), r)
    ensures var s1 := Exec(s0, before); Moved(MoveOf(s1, r), Exec(s1, during), t, ClearedBy(s1, during, t))
  {
    InitInv(s0);
    ExecKeeps(s0, before);
    var s1 := Exec(s0, before);
    MoveStarts(s1, t, r);
    MoveCovers(MoveOf(s1, r), s1, t, during);
  }

  lemma {:induction false} MoveCovers(j: Move, s: State, t: Tid, during: seq<Event>)
    requires Inv(s) && MoveAt(j, s, t, [], 0, 0) && StaysMoving(s, during, t, j.r) && !InMove(At(Exec(s, during), t), j.r)
    ensures Moved(j, Exec(s, during), t, ClearedBy(s, during, t))
  {
    var got := ClearedBy(s, during, t);
    var n, k := MoveThroughout(j, s, during, t, [], 0, 0);
    assert [] + got == got;
    ExecKeeps(s, during);
    MoveEnds(j, Exec(s, during), t, got, n, k);
  }

  lemma {:induction false} MovedOn(j: Move, n: nat, w: nat, x: Tid)
    requires Proper(j) && w <= n <= |j.h| && x in j.h[w..n]
    ensures x in LeftOn1(j, w)
  {
    RestHits(j.q, j.c1, j.r.key1, None, w);
    HitsIn(j.q, LeftOn1(j, w), j.r.key1, None);
    var h := j.h;
    assert h[w..n] == h[w..][..n - w];
  }

  lemma {:induction false} MoveEnds(j: Move, s: State, t: Tid, got: seq<Tid>, taken: nat, done: nat)
    requires Inv(s) && MoveAt(j, s, t, got, taken, done) && !InMove(At(s, t), j.r)
    ensures Moved(j, s, t, got)
  {
    var h, n := j.h, Total(j);
    var w := Min(Woke(j, n), n);
    forall x | x in h[w..n] ensures x in Chain(s, j.b2) && Q(s, x).lockPtr == Some(j.b2) {
      if j.b1 == j.b2 {
        MovedOn(j, n, w, x);
      }
      ChainUnderLock(s, t, j.b2, x);
    }
  }
}
