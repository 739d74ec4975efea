/** Page-in of file objects in kernel/fileobj.c: fileobj_get_page (without premapping) and fileobj_do_pageio as interleaved
    critical sections under the page-hash locks, with the read request outside them. */
module FilePageIo {
  import opened Seqs

  type PageId = nat
  type Tid = nat

  const PAGE_SIZE: nat := 4096
  const HASH_SIZE: nat := 512
  const ENOMEM: int := 12
  const EIO: int := 5
  const ERANGE: int := 34
  const ERESTART: int := 85

  datatype Mode = NoMode | WillPageio | Pageio | DonePageio | PageioEof | PageioError | Mapped

  /** struct page; requests and filled are auxiliary: read requests issued for it, and whether its contents are in place. */
  datatype Page = Page(offset: nat, mode: Mode, count: nat, requests: nat, filled: bool)

  datatype Pc =
    | Idle
    | Start(off: nat)      // fileobj_get_page returned -ERESTART with this page-in to do
    | Waiting(p: PageId)   // another thread's read is under way
    | Reading(p: PageId)   // its own read is under way

  datatype State = State(zeroFill: bool, lists: map<nat, seq<PageId>>, page: map<PageId, Page>, pc: map<Tid, Pc>, refs: int, panicked: bool)

  datatype Result = Address(p: PageId) | Error(code: int)

  function At(s: State, t: Tid): Pc {
    if t in s.pc then s.pc[t] else Idle
  }

  function List(s: State, h: nat): seq<PageId> {
    if h in s.lists then s.lists[h] else []
  }

  function Hash(off: nat): nat {
    off / PAGE_SIZE % HASH_SIZE
  }

  function ModeOf(s: State, p: PageId): Mode {
    if p in s.page then s.page[p].mode else NoMode
  }

  function SetMode(s: State, p: PageId, m: Mode): State {
    if p in s.page then s.(page := s.page[p := s.page[p].(mode := m)]) else s
  }

  function Go(s: State, t: Tid, p: Pc): State {
    s.(pc := s.pc[t := p])
  }

  /** The page found at offset off, or a page whose mode makes the lookup panic. */
  datatype Found = Page(p: PageId) | Nothing | Bad

  /** __fileobj_page_hash_lookup */
  function Lookup(s: State, l: seq<PageId>, off: nat): (r: Found)
    ensures r.Page? ==> r.p in l && r.p in s.page && s.page[r.p].offset == off
    ensures r.Nothing? ==> forall p :: p in l ==> p in s.page && s.page[p].offset != off
    ensures r.Bad? ==> exists p :: p in l && ModeOf(s, p) == NoMode
  {
    if l == [] then Nothing
    else if ModeOf(s, l[0]) == NoMode then Bad
    else if s.page[l[0]].offset == off then Found.Page(l[0])
    else Lookup(s, l[1..], off)
  }

  // ---------------------------------------------------------------------------------------------- fileobj_get_page

  /** A new page at off, on its hash list and waiting for page-in. */
  function Inserted(s: State, off: nat, p: PageId): State {
    s.(page := s.page[p := Page.Page(off, WillPageio, 1, 0, false)], lists := s.lists[Hash(off) := [p] + List(s, Hash(off))])
  }

  function AskPageio(s: State, t: Tid, off: nat): State {
    Go(s.(refs := s.refs + 1), t, Start(off))
  }

  /** fileobj_get_page at off: the state after it and its result. `spare` is the page the allocator hands out, if any;
      hasArgs whether the argument block could be allocated. */
  function GetPage(s: State, t: Tid, off: nat, spare: Option<PageId>, hasArgs: bool): (State, Result) {
    match Lookup(s, List(s, Hash(off)), off)
    case Bad => (s.(panicked := true), Error(0))
    case Nothing =>
      if !hasArgs || spare.None? then (s, Error(-ENOMEM))
      else if ModeOf(s, spare.value) != NoMode then (s.(panicked := true), Error(0))
      else (AskPageio(Inserted(s, off, spare.value), t, off), Error(-ERESTART))
    case Page(p) =>
      var g := s.page[p];
      if g.mode == WillPageio || g.mode == Pageio then
        if !hasArgs then (s, Error(-ENOMEM)) else (AskPageio(s, t, off), Error(-ERESTART))
      else if g.mode == PageioEof then (s, Error(-ERANGE))
      else if g.mode == PageioError then (s, Error(-EIO))
      else (s.(page := s.page[p := g.(mode := if g.mode == DonePageio then Mapped else g.mode, count := g.count + 1)]), Address(p))
  }

  // ---------------------------------------------------------------------------------------------- fileobj_do_pageio

  function Finish(s: State, t: Tid): State {
    Go(s.(refs := s.refs - 1), t, Idle)
  }

  /** From the end of the wait loop to the read request or the end. */
  function Act(s: State, t: Tid, p: PageId): State {
    if ModeOf(s, p) != WillPageio then Finish(s, t)
    else if s.zeroFill then Finish(s.(page := s.page[p := s.page[p].(mode := DonePageio, filled := true)]), t)
    else Go(s.(page := s.page[p := s.page[p].(mode := Pageio, requests := s.page[p].requests + 1)]), t, Reading(p))
  }

  function Run(s: State, t: Tid): State {
    match At(s, t)
    case Idle => s
    case Start(off) =>
      (match Lookup(s, List(s, Hash(off)), off)
       case Bad => s.(panicked := true)
       case Nothing => Finish(s, t)
       case Page(p) => if ModeOf(s, p) == Pageio then Go(s, t, Waiting(p)) else Act(s, t, p))
    case Waiting(p) => if ModeOf(s, p) == Pageio then s else Act(s, t, p)
    case Reading(_) => s
  }

  /** The reply ss to the read request. */
  function Reply(s: State, t: Tid, ss: int): State {
    match At(s, t)
    case Reading(p) =>
      if ModeOf(s, p) != Pageio then s.(panicked := true)
      else if ss == 0 then Finish(SetMode(s, p, PageioEof), t)
      else if ss != PAGE_SIZE then Finish(SetMode(s, p, PageioError), t)
      else Finish(s.(page := s.page[p := s.page[p].(mode := DonePageio, filled := true)]), t)
    case _ => s
  }

  datatype Event =
    | Get(t: Tid, off: nat, spare: Option<PageId>, hasArgs: bool)
    | Continue(t: Tid)
    | ReadDone(t: Tid, ss: int)

  /** The allocator hands out pages that are not in use. */
  predicate Allowed(s: State, e: Event) {
    e.Get? && e.spare.Some? ==> e.spare.value !in s.page
  }

  function Step(s: State, e: Event): State {
    match e
    case Get(t, off, spare, hasArgs) => if At(s, t).Idle? then GetPage(s, t, off, spare, hasArgs).0 else s
    case Continue(t) => Run(s, t)
    case ReadDone(t, ss) => Reply(s, t, ss)
  }

  function Exec(s: State, es: seq<Event>): State
    decreases |es|
  {
    if es == [] then s else Exec(Step(s, es[0]), es[1..])
  }

  predicate AllowedRun(s: State, es: seq<Event>)
    decreases |es|
  {
    es == [] || (Allowed(s, es[0]) && AllowedRun(Step(s, es[0]), es[1..]))
  }

  predicate Init(s: State) {
    s.lists == map[] && s.page == map[] && s.pc == map[] && s.refs == 0 && !s.panicked
  }

  // ---------------------------------------------------------------------------------------------- the invariant

  /** The mode of a page says what has happened to it. */
  predicate PageOk(s: State, p: PageId) {
    p in s.page ==>
      var g := s.page[p];
      && g.mode != NoMode && p in List(s, Hash(g.offset))
      && g.requests == (if g.mode == WillPageio || s.zeroFill then 0 else 1)
      && (s.zeroFill ==> g.mode != Pageio && g.mode != PageioEof && g.mode != PageioError)
      && (g.filled <==> g.mode == DonePageio || g.mode == Mapped)
  }

  predicate SlotOk(s: State, h: nat, i: nat) {
    i < |List(s, h)| ==> List(s, h)[i] in s.page && Hash(s.page[List(s, h)[i]].offset) == h
  }

  /** No offset has two pages, and no page is listed twice. */
  predicate OneEach(s: State, h: nat, i: nat, j: nat) {
    i < j < |List(s, h)| && List(s, h)[i] in s.page && List(s, h)[j] in s.page ==>
      s.page[List(s, h)[i]].offset != s.page[List(s, h)[j]].offset
  }

  predicate ThreadOk(s: State, t: Tid) {
    match At(s, t)
    case Waiting(p) => p in s.page && s.page[p].mode != WillPageio
    case Reading(p) => p in s.page && s.page[p].mode == Pageio
    case _ => true
  }

  /** One thread at most has a read of a page under way. */
  predicate OneReader(s: State, t: Tid, u: Tid) {
    t != u && At(s, t).Reading? && At(s, u).Reading? ==> At(s, t).p != At(s, u).p
  }

  /** A page whose read is under way has a thread that issued it. */
  ghost predicate HasReader(s: State, p: PageId) {
    ModeOf(s, p) == Pageio ==> exists t :: At(s, t) == Reading(p)
  }

  function Busy(s: State): set<Tid> {
    set t | t in s.pc && !s.pc[t].Idle?
  }

  ghost predicate PagesOk(s: State) {
    && (forall p :: PageOk(s, p)) && (forall h: nat, i: nat :: SlotOk(s, h, i))
    && (forall h: nat, i: nat, j: nat :: OneEach(s, h, i, j))
  }

  ghost predicate Inv(s: State) {
    && !s.panicked && PagesOk(s)
    && (forall t :: ThreadOk(s, t)) && (forall t, u :: OneReader(s, t, u)) && (forall p :: HasReader(s, p))
    && s.refs == |Busy(s)|
  }

  lemma {:induction false} InitInv(s: State)
    requires Init(s)
    ensures Inv(s)
  {
    assert Busy(s) == {};
  }

  // ---------------------------------------------------------------------------------------------- every step keeps it

  lemma {:induction false} LookupFine(s: State, h: nat, off: nat)
    requires PagesOk(s)
    ensures !Lookup(s, List(s, h), off).Bad?
  {
    forall p | p in List(s, h) ensures ModeOf(s, p) != NoMode {
      var i: nat :| i < |List(s, h)| && List(s, h)[i] == p;
      assert SlotOk(s, h, i) && PageOk(s, p);
    }
  }

  /** Page p's record changes, but not its offset. */
  lemma {:induction false} PageChange(s: State, s': State, p: PageId)
    requires PagesOk(s) && p in s.page && p in s'.page && s'.page == s.page[p := s'.page[p]] && s'.page[p].offset == s.page[p].offset
    requires s'.lists == s.lists && s'.zeroFill == s.zeroFill && PageOk(s', p)
    ensures PagesOk(s')
  {
    forall q ensures PageOk(s', q) {
      assert PageOk(s, q);
    }
    forall h: nat, i: nat ensures SlotOk(s', h, i) {
      assert SlotOk(s, h, i);
    }
    forall h: nat, i: nat, j: nat ensures OneEach(s', h, i, j) {
      assert OneEach(s, h, i, j);
    }
  }

  lemma {:induction false} InsertOk(s: State, off: nat, p: PageId)
    requires PagesOk(s) && p !in s.page && Lookup(s, List(s, Hash(off)), off).Nothing?
    ensures PagesOk(Inserted(s, off, p))
  {
    var s', h0 := Inserted(s, off, p), Hash(off);
    assert List(s', h0) == [p] + List(s, h0) && forall h: nat :: h != h0 ==> List(s', h) == List(s, h);
    forall q ensures PageOk(s', q) {
      assert PageOk(s, q);
      assert p in List(s', h0);
    }
    forall h: nat, i: nat ensures SlotOk(s', h, i) {
      assert SlotOk(s, h, i) && (i > 0 ==> SlotOk(s, h, i - 1));
    }
    forall h: nat, i: nat, j: nat ensures OneEach(s', h, i, j) {
      InsertOneEach(s, off, p, h, i, j);
    }
  }

  lemma {:induction false} InsertOneEach(s: State, off: nat, p: PageId, h: nat, i: nat, j: nat)
    requires PagesOk(s) && p !in s.page && Lookup(s, List(s, Hash(off)), off).Nothing?
    ensures OneEach(Inserted(s, off, p), h, i, j)
  {
    var l := List(s, h);
    assert OneEach(s, h, i, j) && (i > 0 && j > 0 ==> OneEach(s, h, i - 1, j - 1)) && SlotOk(s, h, i) && SlotOk(s, h, j);
    assert i > 0 ==> SlotOk(s, h, i - 1);
    assert j > 0 ==> SlotOk(s, h, j - 1);
    assert h == Hash(off) && 0 < j <= |l| ==> l[j - 1] in l;
  }

  lemma {:induction false} BusyGo(s: State, t: Tid, p: Pc)
    ensures Busy(Go(s, t, p)) == if p.Idle? then Busy(s) - {t} else Busy(s) + {t}
    ensures t in Busy(s) <==> !At(s, t).Idle?
  {
  }

  /** Threads other than t, when the page table changes as page-in does. */
  lemma {:induction false} ThreadsKeep(s: State, s': State, t: Tid)
    requires (forall u :: ThreadOk(s, u)) && (forall u, v :: OneReader(s, u, v)) && (forall p :: HasReader(s, p)) && ThreadOk(s', t)
    requires forall u :: u != t ==> At(s', u) == At(s, u)
    requires forall p :: p in s.page ==> p in s'.page && (s'.page[p].mode == WillPageio ==> s.page[p].mode == WillPageio)
    requires forall p :: p in s.page && s.page[p].mode == Pageio && s'.page[p].mode != Pageio ==> At(s, t) == Reading(p)
    requires At(s', t).Reading? ==> At(s, t) == At(s', t) || (At(s', t).p in s.page && s.page[At(s', t).p].mode != Pageio)
    requires forall p :: ModeOf(s', p) == Pageio && At(s', t) != Reading(p) ==> ModeOf(s, p) == Pageio && At(s, t) != Reading(p)
    ensures (forall u :: ThreadOk(s', u)) && (forall u, v :: OneReader(s', u, v)) && (forall p :: HasReader(s', p))
  {
    forall p ensures HasReader(s', p) {
      if ModeOf(s', p) == Pageio && At(s', t) != Reading(p) {
        assert HasReader(s, p);
        var u :| At(s, u) == Reading(p);
        assert At(s', u) == Reading(p);
      }
    }
    forall u ensures ThreadOk(s', u) {
      assert ThreadOk(s, u) && OneReader(s, u, t);
    }
    forall u, v ensures OneReader(s', u, v) {
      assert OneReader(s, u, v) && ThreadOk(s, u) && ThreadOk(s, v);
    }
  }

  lemma {:induction false} GetKeeps(s: State, t: Tid, off: nat, spare: Option<PageId>, hasArgs: bool)
    requires Inv(s) && At(s, t).Idle? && (spare.Some? ==> spare.value !in s.page)
    ensures Inv(GetPage(s, t, off, spare, hasArgs).0)
  {
    var s' := GetPage(s, t, off, spare, hasArgs).0;
    LookupFine(s, Hash(off), off);
    match Lookup(s, List(s, Hash(off)), off)
    case Bad =>
    case Nothing =>
      if hasArgs && spare.Some? {
        InsertOk(s, off, spare.value);
        InsertThreads(s, t, off, spare.value);
      }
    case Page(p) =>
      assert PageOk(s, p);
      if s.page[p].mode == WillPageio || s.page[p].mode == Pageio {
        if hasArgs {
          AskKeeps(s, t, off);
        }
      } else if s.page[p].mode == DonePageio || s.page[p].mode == Mapped {
        assert Busy(s') == Busy(s);
        PageChange(s, s', p);
        ThreadsKeep(s, s', t);
      }
  }

  lemma {:induction false} AskKeeps(s: State, t: Tid, off: nat)
    requires Inv(s) && At(s, t).Idle?
    ensures Inv(AskPageio(s, t, off))
  {
    var s' := AskPageio(s, t, off);
    BusyGo(s, t, Start(off));
    assert Busy(s') == Busy(s) + {t};
    SamePages(s, s');
    ThreadsKeep(s, s', t);
  }

  lemma {:induction false} SamePages(s: State, s': State)
    requires PagesOk(s) && s'.page == s.page && s'.lists == s.lists && s'.zeroFill == s.zeroFill
    ensures PagesOk(s')
  {
    forall q ensures PageOk(s', q) {
      assert PageOk(s, q);
    }
    forall h: nat, i: nat ensures SlotOk(s', h, i) {
      assert SlotOk(s, h, i);
    }
    forall h: nat, i: nat, j: nat ensures OneEach(s', h, i, j) {
      assert OneEach(s, h, i, j);
    }
  }

  lemma {:induction false} InsertThreads(s: State, t: Tid, off: nat, p: PageId)
    requires Inv(s) && At(s, t).Idle? && p !in s.page && PagesOk(Inserted(s, off, p))
    ensures Inv(AskPageio(Inserted(s, off, p), t, off))
  {
    var s1 := Inserted(s, off, p);
    var s' := AskPageio(s1, t, off);
    BusyGo(s, t, Start(off));
    assert Busy(s') == Busy(s) + {t};
    SamePages(s1, s');
    ThreadsKeep(s, s', t);
  }

  lemma {:induction false} FinishKeeps(s: State, s1: State, t: Tid)
    requires Inv(s) && !At(s, t).Idle? && s1.pc == s.pc && s1.refs == s.refs && !s1.panicked && PagesOk(s1)
    requires forall p :: p in s.page ==> p in s1.page && (s1.page[p].mode == WillPageio ==> s.page[p].mode == WillPageio)
    requires forall p :: p in s.page && s.page[p].mode == Pageio && s1.page[p].mode != Pageio ==> At(s, t) == Reading(p)
    requires forall p :: ModeOf(s1, p) == Pageio ==> ModeOf(s, p) == Pageio && At(s, t) != Reading(p)
    ensures Inv(Finish(s1, t))
  {
    var s' := Finish(s1, t);
    BusyGo(s, t, Idle);
    assert Busy(s') == Busy(s) - {t};
    SamePages(s1, s');
    ThreadsKeep(s, s', t);
  }

  lemma {:induction false} ActKeeps(s: State, t: Tid, p: PageId)
    requires Inv(s) && (At(s, t).Start? || At(s, t).Waiting?) && p in s.page && s.page[p].mode != Pageio
    ensures Inv(Act(s, t, p))
  {
    assert PageOk(s, p);
    if s.page[p].mode != WillPageio {
      FinishKeeps(s, s, t);
    } else if s.zeroFill {
      var s1 := s.(page := s.page[p := s.page[p].(mode := DonePageio, filled := true)]);
      PageChange(s, s1, p);
      FinishKeeps(s, s1, t);
    } else {
      var s' := Act(s, t, p);
      BusyGo(s, t, Reading(p));
      assert Busy(s') == Busy(s);
      PageChange(s, s', p);
      ThreadsKeep(s, s', t);
    }
  }

  lemma {:induction false} RunKeeps(s: State, t: Tid)
    requires Inv(s)
    ensures Inv(Run(s, t))
  {
    assert ThreadOk(s, t);
    match At(s, t)
    case Idle =>
    case Start(off) =>
      LookupFine(s, Hash(off), off);
      var f := Lookup(s, List(s, Hash(off)), off);
      if f.Nothing? {
        FinishKeeps(s, s, t);
      } else if ModeOf(s, f.p) == Pageio {
        var s' := Run(s, t);
        BusyGo(s, t, Waiting(f.p));
        assert Busy(s') == Busy(s);
        SamePages(s, s');
        ThreadsKeep(s, s', t);
      } else {
        ActKeeps(s, t, f.p);
      }
    case Waiting(p) =>
      if ModeOf(s, p) != Pageio {
        ActKeeps(s, t, p);
      }
    case Reading(_) =>
  }

  lemma {:induction false} ReplyKeeps(s: State, t: Tid, ss: int)
    requires Inv(s) && At(s, t).Reading?
    ensures Inv(Reply(s, t, ss))
  {
    assert ThreadOk(s, t);
    var p := At(s, t).p;
    assert PageOk(s, p);
    var g := if ss == 0 then s.page[p].(mode := PageioEof)
             else if ss != PAGE_SIZE then s.page[p].(mode := PageioError)
             else s.page[p].(mode := DonePageio, filled := true);
    var s1 := s.(page := s.page[p := g]);
    PageChange(s, s1, p);
    FinishKeeps(s, s1, t);
  }

  lemma {:induction false} StepKeeps(s: State, e: Event)
    requires Inv(s) && Allowed(s, e)
    ensures Inv(Step(s, e))
  {
    match e
    case Get(t, off, spare, hasArgs) =>
      if At(s, t).Idle? {
        GetKeeps(s, t, off, spare, hasArgs);
      }
    case Continue(t) => RunKeeps(s, t);
    case ReadDone(t, ss) =>
      if At(s, t).Reading? {
        ReplyKeeps(s, t, ss);
      }
  }

  lemma {:induction false} ExecKeeps(s: State, es: seq<Event>)
    requires Inv(s) && AllowedRun(s, es)
    ensures Inv(Exec(s, es))
    decreases |es|
  {
    if es != [] {
      StepKeeps(s, es[0]);
      ExecKeeps(Step(s, es[0]), es[1..]);
    }
  }

  // ---------------------------------------------------------------------------------------------- in every run

  lemma {:induction false} SameOffset(s: State, p: PageId, q: PageId)
    requires PagesOk(s) && p in s.page && q in s.page && s.page[p].offset == s.page[q].offset
    ensures p == q
  {
    assert PageOk(s, p) && PageOk(s, q);
    var h := Hash(s.page[p].offset);
    var i: nat :| i < |List(s, h)| && List(s, h)[i] == p;
    var j: nat :| j < |List(s, h)| && List(s, h)[j] == q;
    assert OneEach(s, h, i, j) && OneEach(s, h, j, i);
  }

  /** In every run: neither panic is reached, an offset has one page at most, at most one read request is issued for a page,
      and the object's references match the page-ins under way. */
  lemma {:induction false} PageInSafe(s0: State, es: seq<Event>, p: PageId, q: PageId)
    requires Init(s0) && AllowedRun(s0, es)
    ensures var s := Exec(s0, es);
            && !s.panicked && s.refs == |Busy(s)|
            && (p in s.page ==> s.page[p].mode != NoMode && s.page[p].requests <= 1)
            && (p in s.page ==> (s.page[p].filled <==> s.page[p].mode == DonePageio || s.page[p].mode == Mapped))
            && (p in s.page && q in s.page && s.page[p].offset == s.page[q].offset ==> p == q)
  {
    InitInv(s0);
    ExecKeeps(s0, es);
    var s := Exec(s0, es);
    assert PageOk(s, p);
    if p in s.page && q in s.page && s.page[p].offset == s.page[q].offset {
      SameOffset(s, p, q);
    }
  }

  /** In every run a thread that waits for a page's read has a reader to wait for, and whatever that reader's reply is, it ends
      the wait. */
  lemma {:induction false} WaitEnds(s0: State, es: seq<Event>, t: Tid)
    requires Init(s0) && AllowedRun(s0, es) && At(Exec(s0, es), t).Waiting? && ModeOf(Exec(s0, es), At(Exec(s0, es), t).p) == Pageio
    ensures var s := Exec(s0, es);
            exists u :: At(s, u) == Reading(At(s, t).p) && forall ss :: ModeOf(Reply(s, u, ss), At(s, t).p) != Pageio
  {
    InitInv(s0);
    ExecKeeps(s0, es);
    var s := Exec(s0, es);
    var p := At(s, t).p;
    assert HasReader(s, p);
    var u :| At(s, u) == Reading(p);
    assert ThreadOk(s, u);
    forall ss ensures ModeOf(Reply(s, u, ss), p) != Pageio {
      ReplyEnds(s, u, ss);
    }
  }

  lemma {:induction false} ReplyEnds(s: State, u: Tid, ss: int)
    requires At(s, u).Reading? && ModeOf(s, At(s, u).p) == Pageio
    ensures ModeOf(Reply(s, u, ss), At(s, u).p) != Pageio
  {
  }

  /** fileobj_get_page hands out an address only for the page at that offset, mapped and with its contents in place. */
  lemma {:induction false} AddressMapped(s0: State, es: seq<Event>, t: Tid, off: nat, spare: Option<PageId>, hasArgs: bool)
    requires Init(s0) && AllowedRun(s0, es) && GetPage(Exec(s0, es), t, off, spare, hasArgs).1.Address?
    ensures var (s', r) := GetPage(Exec(s0, es), t, off, spare, hasArgs);
            r.p in s'.page && s'.page[r.p].mode == Mapped && s'.page[r.p].filled && s'.page[r.p].offset == off
  {
    InitInv(s0);
    ExecKeeps(s0, es);
    var s := Exec(s0, es);
    assert PageOk(s, Lookup(s, List(s, Hash(off)), off).p);
  }

  /** Mode m' can follow mode m. */
  predicate Later(m: Mode, m': Mode) {
    || m == m'
    || (m == WillPageio && m' != NoMode)
    || (m == Pageio && (m' == DonePageio || m' == PageioEof || m' == PageioError || m' == Mapped))
    || (m == DonePageio && m' == Mapped)
  }

  /** What one step may do to a page: WillPageio to Pageio or DonePageio, Pageio to its three outcomes, DonePageio to Mapped. */
  predicate Follows(m: Mode, m': Mode) {
    || m == m'
    || (m == WillPageio && (m' == Pageio || m' == DonePageio))
    || (m == Pageio && (m' == DonePageio || m' == PageioEof || m' == PageioError))
    || (m == DonePageio && m' == Mapped)
  }

  /** Which event gives page p the new mode m: the page-in that takes it up, the reply to its reader, or the next lookup. */
  predicate Makes(s: State, e: Event, p: PageId, m: Mode)
    requires p in s.page
  {
    match s.page[p].mode
    case WillPageio => e.Continue? && m == if s.zeroFill then DonePageio else Pageio
    case Pageio => e.ReadDone? && At(s, e.t) == Reading(p) && m == if e.ss == 4096 then DonePageio else if e.ss == 0 then PageioEof else PageioError
    case DonePageio => e.Get? && e.off == s.page[p].offset && m == Mapped
    case _ => false
  }

  lemma {:induction false} StepForward(s: State, e: Event, p: PageId)
    requires Inv(s) && Allowed(s, e) && p in s.page
    ensures p in Step(s, e).page && Step(s, e).page[p].offset == s.page[p].offset
    ensures Follows(s.page[p].mode, Step(s, e).page[p].mode)
    ensures Step(s, e).page[p].mode != s.page[p].mode ==> Makes(s, e, p, Step(s, e).page[p].mode)
  {
    assert PageOk(s, p);
    match e
    case Get(t, off, spare, hasArgs) => LookupFine(s, Hash(off), off);
    case Continue(t) => assert ThreadOk(s, t);
    case ReadDone(t, ss) => assert ThreadOk(s, t);
  }

  /** In every run a page keeps its offset and its mode only moves forward. */
  lemma {:induction false} ModesForward(s: State, es: seq<Event>, p: PageId)
    requires Inv(s) && AllowedRun(s, es) && p in s.page
    ensures var s' := Exec(s, es); p in s'.page && s'.page[p].offset == s.page[p].offset && Later(s.page[p].mode, s'.page[p].mode)
    decreases |es|
  {
    assert PageOk(s, p);
    if es != [] {
      StepForward(s, es[0], p);
      StepKeeps(s, es[0]);
      ModesForward(Step(s, es[0]), es[1..], p);
    }
  }

  // ---------------------------------------------------------------------------------------------- what each call does

  /** Page p holds offset off. */
  predicate Holds(s: State, off: nat, p: PageId) {
    p in s.page && s.page[p].offset == off
  }

  /** The hash lookup finds the page that holds the offset, wherever it is. */
  lemma {:induction false} LookupExact(s: State, off: nat, p: PageId)
    requires PagesOk(s)
    ensures Lookup(s, List(s, off / 4096 % 512), off) == Found.Page(p) <==> Holds(s, off, p)
  {
    LookupFine(s, Hash(off), off);
    assert PageOk(s, p);
    var f := Lookup(s, List(s, Hash(off)), off);
    if Holds(s, off, p) && f.Page? {
      SameOffset(s, p, f.p);
    }
  }

  /** Only page p's record differs, and only in mode, count, requests and filled; what t does next is `next`. */
  ghost predicate OnlyPage(s: State, s': State, p: PageId, t: Tid, next: Pc) {
    && p in s.page && p in s'.page && s'.page[p].offset == s.page[p].offset
    && (forall q :: q != p ==> (q in s'.page <==> q in s.page)) && (forall q :: q != p && q in s.page ==> s'.page[q] == s.page[q])
    && s'.lists == s.lists && At(s', t) == next && (forall u :: u != t ==> At(s', u) == At(s, u))
  }

  /** fileobj_get_page at an offset no page holds: one new page, not read yet, and a page-in to do; or -ENOMEM and no change. */
  lemma {:induction false} GetNew(s: State, t: Tid, off: nat, spare: Option<PageId>, hasArgs: bool)
    requires Inv(s) && At(s, t).Idle? && (spare.Some? ==> spare.value !in s.page) && forall p :: !Holds(s, off, p)
    ensures var (s', r) := GetPage(s, t, off, spare, hasArgs);
            if hasArgs && spare.Some? then
              && r == Error(-ERESTART) && At(s', t) == Start(off) && s'.refs == s.refs + 1
              && Holds(s', off, spare.value) && s'.page[spare.value].mode == WillPageio && !s'.page[spare.value].filled
              && s'.page[spare.value].count == 1 && s'.page[spare.value].requests == 0
              && (forall q :: q != spare.value ==> (q in s'.page <==> q in s.page))
              && (forall q :: q in s.page ==> s'.page[q] == s.page[q]) && (forall u :: u != t ==> At(s', u) == At(s, u))
            else r == Error(-ENOMEM) && s' == s
  {
    LookupFine(s, Hash(off), off);
    var f := Lookup(s, List(s, Hash(off)), off);
    if f.Page? {
      LookupExact(s, off, f.p);
    }
  }

  /** fileobj_get_page at the offset of page p answers by p's mode: a page-in to do while it is not read, -ERANGE past the end of
      the file, -EIO after a failed read, and otherwise p itself, mapped and counted once more. */
  lemma {:induction false} GetOld(s: State, t: Tid, off: nat, spare: Option<PageId>, hasArgs: bool, p: PageId)
    requires Inv(s) && At(s, t).Idle? && Holds(s, off, p)
    ensures var (s', r) := GetPage(s, t, off, spare, hasArgs);
            var m := s.page[p].mode;
            if (m == WillPageio || m == Pageio) && hasArgs then
              r == Error(-ERESTART) && At(s', t) == Start(off) && s'.refs == s.refs + 1 && s'.page == s.page && s'.lists == s.lists
            else if m == WillPageio || m == Pageio then r == Error(-ENOMEM) && s' == s
            else if m == PageioEof then r == Error(-ERANGE) && s' == s
            else if m == PageioError then r == Error(-EIO) && s' == s
            else
              && r == Address(p) && OnlyPage(s, s', p, t, Idle) && s'.refs == s.refs
              && s'.page[p].mode == Mapped && s'.page[p].filled && s'.page[p].count == s.page[p].count + 1
  {
    LookupExact(s, off, p);
    assert PageOk(s, p);
  }

  /** fileobj_do_pageio under the lock, once it is not to wait: it reads a page nobody has read, or clears it when the file is
      zero-filled; otherwise another thread was first and it is done. */
  ghost predicate Acted(s: State, s': State, t: Tid, p: PageId)
    requires p in s.page
  {
    if s.page[p].mode == WillPageio && !s.zeroFill then
      OnlyPage(s, s', p, t, Reading(p)) && s'.page[p].mode == Pageio && s'.page[p].requests == 1 && s'.refs == s.refs
    else if s.page[p].mode == WillPageio then
      OnlyPage(s, s', p, t, Idle) && s'.page[p].mode == DonePageio && s'.page[p].filled && s'.refs == s.refs - 1
    else s'.page == s.page && s'.lists == s.lists && At(s', t) == Idle && s'.refs == s.refs - 1
  }

  lemma {:induction false} StartActs(s: State, t: Tid, off: nat, p: PageId)
    requires Inv(s) && At(s, t) == Start(off) && Holds(s, off, p)
    ensures var s' := Run(s, t);
            if s.page[p].mode == Pageio then At(s', t) == Waiting(p) && s'.page == s.page && s'.refs == s.refs else Acted(s, s', t, p)
  {
    LookupExact(s, off, p);
    assert PageOk(s, p);
  }

  lemma {:induction false} WaiterActs(s: State, t: Tid, p: PageId)
    requires Inv(s) && At(s, t) == Waiting(p)
    ensures p in s.page && var s' := Run(s, t); if s.page[p].mode == Pageio then s' == s else Acted(s, s', t, p)
  {
    assert ThreadOk(s, t) && PageOk(s, p);
  }

  /** The reply decides: a full page is there with its contents, nothing read is the end of the file, anything else an error. */
  lemma {:induction false} ReplyDecides(s: State, t: Tid, p: PageId, ss: int)
    requires Inv(s) && At(s, t) == Reading(p)
    ensures p in s.page && var s' := Reply(s, t, ss);
            && OnlyPage(s, s', p, t, Idle) && s'.refs == s.refs - 1 && s'.page[p].count == s.page[p].count
            && (s'.page[p].mode == DonePageio && s'.page[p].filled <==> ss == 4096)
            && (s'.page[p].mode == PageioEof <==> ss == 0)
            && (s'.page[p].mode == PageioError <==> ss != 0 && ss != 4096)
  {
    assert ThreadOk(s, t);
  }

  lemma {:induction false} SettledStays(s: State, es: seq<Event>, p: PageId)
    requires Inv(s) && AllowedRun(s, es) && p in s.page
    requires s.page[p].mode == DonePageio || s.page[p].mode == Mapped || s.page[p].mode == PageioEof || s.page[p].mode == PageioError
    ensures var s' := Exec(s, es);
            && p in s'.page && s'.page[p].offset == s.page[p].offset
            && (s.page[p].mode == PageioEof || s.page[p].mode == PageioError ==> s'.page[p].mode == s.page[p].mode)
            && (s.page[p].mode == DonePageio || s.page[p].mode == Mapped ==> s'.page[p].mode == DonePageio || s'.page[p].mode == Mapped)
  {
    ModesForward(s, es, p);
  }

  /** Whatever happens after the reply, fileobj_get_page at that offset answers as the reply said: with the page itself after a
      full read, with -ERANGE after an empty one and with -EIO otherwise. */
  lemma {:induction false} ReadAnswers(s0: State, before: seq<Event>, t: Tid, p: PageId, ss: int, after: seq<Event>,
                                       u: Tid, spare: Option<PageId>, hasArgs: bool)
    requires Init(s0) && AllowedRun(s0, before) && At(Exec(s0, before), t) == Reading(p)
    requires AllowedRun(Reply(Exec(s0, before), t, ss), after) && At(Exec(Reply(Exec(s0, before), t, ss), after), u).Idle?
    ensures var s := Exec(s0, before);
            && p in s.page
            && var r := GetPage(Exec(Reply(s, t, ss), after), u, s.page[p].offset, spare, hasArgs).1;
               r == if ss == 4096 then Address(p) else if ss == 0 then Error(-ERANGE) else Error(-EIO)
  {
    InitInv(s0);
    ExecKeeps(s0, before);
    var s := Exec(s0, before);
    ReplyDecides(s, t, p, ss);
    ReplyKeeps(s, t, ss);
    var s1 := Reply(s, t, ss);
    SettledStays(s1, after, p);
    ExecKeeps(s1, after);
    GetOld(Exec(s1, after), u, s.page[p].offset, spare, hasArgs, p);
  }

  /** A page-in from beginning to end: an offset no page holds, a spare page, the two steps of the caller, and a reply. */
  lemma {:induction false} PageInRun(s: State, t: Tid, off: nat, p: PageId, ss: int)
    requires Inv(s) && !s.zeroFill && At(s, t).Idle? && p !in s.page && forall q :: !Holds(s, off, q)
    ensures var s2 := Run(GetPage(s, t, off, Some(p), true).0, t);
            && At(s2, t) == Reading(p)
            && GetPage(Reply(s2, t, ss), t, off, None, false).1 ==
                 if ss == 4096 then Address(p) else if ss == 0 then Error(-ERANGE) else Error(-EIO)
  {
    var s1 := GetPage(s, t, off, Some(p), true).0;
    GetNew(s, t, off, Some(p), true);
    GetKeeps(s, t, off, Some(p), true);
    StartActs(s1, t, off, p);
    RunKeeps(s1, t);
    var s2 := Run(s1, t);
    ReplyDecides(s2, t, p, ss);
    ReplyKeeps(s2, t, ss);
    GetOld(Reply(s2, t, ss), t, off, None, false, p);
  }

  /** The page of a zero-filled file needs no read. */
  lemma {:induction false} ZeroFillRun(s: State, t: Tid, off: nat, p: PageId)
    requires Inv(s) && s.zeroFill && At(s, t).Idle? && p !in s.page && forall q :: !Holds(s, off, q)
    ensures var s2 := Run(GetPage(s, t, off, Some(p), true).0, t);
            At(s2, t) == Idle && p in s2.page && s2.page[p].requests == 0 && GetPage(s2, t, off, None, false).1 == Address(p)
  {
    var s1 := GetPage(s, t, off, Some(p), true).0;
    GetNew(s, t, off, Some(p), true);
    GetKeeps(s, t, off, Some(p), true);
    StartActs(s1, t, off, p);
    RunKeeps(s1, t);
    assert PageOk(Run(s1, t), p);
    GetOld(Run(s1, t), t, off, None, false, p);
  }

  /** A thread with a page-in to do finds its page. */
  ghost predicate StartOk(s: State, t: Tid) {
    At(s, t).Start? ==> exists p :: Holds(s, At(s, t).off, p)
  }

  lemma {:induction false} StartByGet(s: State, e: Event, t: Tid)
    requires At(Step(s, e), t).Start?
    ensures At(Step(s, e), t) == At(s, t) || (e.Get? && e.t == t && At(s, t).Idle? && At(Step(s, e), t).off == e.off)
  {
  }

  lemma {:induction false} GetHolds(s: State, e: Event)
    requires Inv(s) && Allowed(s, e) && e.Get? && At(s, e.t).Idle? && At(Step(s, e), e.t) == Start(e.off)
    ensures exists p :: Holds(Step(s, e), e.off, p)
  {
    if p :| Holds(s, e.off, p) {
      StepForward(s, e, p);
      assert Holds(Step(s, e), e.off, p);
    } else {
      GetNew(s, e.t, e.off, e.spare, e.hasArgs);
      assert Holds(Step(s, e), e.off, e.spare.value);
    }
  }

  lemma {:induction false} StartStep(s: State, e: Event, t: Tid)
    requires Inv(s) && Allowed(s, e) && StartOk(s, t)
    ensures StartOk(Step(s, e), t)
  {
    var s' := Step(s, e);
    if At(s', t).Start? {
      StartByGet(s, e, t);
      if At(s', t) == At(s, t) {
        var p :| Holds(s, At(s, t).off, p);
        StepForward(s, e, p);
        assert Holds(s', At(s', t).off, p);
      } else {
        GetHolds(s, e);
      }
    }
  }

  /** In every run the Nothing branch of fileobj_do_pageio is not taken. */
  lemma {:induction false} StartFinds(s: State, es: seq<Event>, t: Tid)
    requires Inv(s) && AllowedRun(s, es) && StartOk(s, t)
    ensures StartOk(Exec(s, es), t)
    decreases |es|
  {
    if es != [] {
      StartStep(s, es[0], t);
      StepKeeps(s, es[0]);
      StartFinds(Step(s, es[0]), es[1..], t);
    }
  }

  // ---------------------------------------------------------------------------------------------- the code

  class FileObj {
    var s: State

    /** The list walk of __fileobj_page_hash_lookup. */
    method HashLookup(h: nat, off: nat) returns (r: Found)
      ensures r == Lookup(s, List(s, h), off)
    {
      var l, i := List(s, h), 0;
      assert l[0..] == l;
      while i < |l|
        invariant 0 <= i <= |l| && Lookup(s, l, off) == Lookup(s, l[i..], off)
      {
        assert l[i..][1..] == l[i + 1..];
        if ModeOf(s, l[i]) == NoMode {
          return Bad;
        }
        if s.page[l[i]].offset == off {
          return Found.Page(l[i]);
        }
        i := i + 1;
      }
      return Nothing;
    }

    /** fileobj_get_page under the hash lock. */
    method Get(t: Tid, off: nat, spare: Option<PageId>, hasArgs: bool) returns (r: Result)
      requires Inv(s) && At(s, t).Idle? && (spare.Some? ==> spare.value !in s.page)
      modifies this
      ensures (s, r) == GetPage(old(s), t, off, spare, hasArgs) && Inv(s)
    {
      GetKeeps(s, t, off, spare, hasArgs);
      LookupFine(s, Hash(off), off);
      var f := HashLookup(Hash(off), off);
      if f.Nothing? || s.page[f.p].mode == WillPageio || s.page[f.p].mode == Pageio {
        if !hasArgs {
          return Error(-ENOMEM);
        }
        if f.Nothing? {
          if spare.None? {
            return Error(-ENOMEM);
          }
          s := Inserted(s, off, spare.value);
        }
        s := AskPageio(s, t, off);
        return Error(-ERESTART);
      }
      if s.page[f.p].mode == DonePageio {
        s := SetMode(s, f.p, Mapped);
      } else if s.page[f.p].mode == PageioEof {
        return Error(-ERANGE);
      } else if s.page[f.p].mode == PageioError {
        return Error(-EIO);
      }
      s := s.(page := s.page[f.p := s.page[f.p].(count := s.page[f.p].count + 1)]);
      assert s.page == old(s).page[f.p := s.page[f.p]];
      return Address(f.p);
    }
  }
}
