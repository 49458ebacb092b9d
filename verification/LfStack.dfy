/** The lock-free stack as a machine of atomic steps.

    Two linked stacks share one vector of embedded nodes: `stack` holds the busy
    nodes, `cache` the free ones.  Each head is a pointer together with a
    generation, changed only by a weak compare-exchange of the pair, and a node
    that was never used comes from the counter `nodec`.  Any number of threads run
    push and pop; a step of a thread is one atomic operation or one plain access
    to a node.  In particular the read of `next` through a head that may be stale
    by then is a step of its own.
 */
module LfStack {

  import opened Words

  // A user data pointer.
  type Data = nat
  const NIL: Data := 0

  datatype Ptr = Null | Node(index: nat)

  // The pointer and generation that one compare-exchange swaps.
  datatype Head = Head(ptr: Ptr, gen: nat)

  // A head as a thread read it.  `at` is history: how many exchanges had
  // succeeded on that head when it was read.  No step looks at it.
  datatype Snap = Snap(head: Head, at: nat)

  // Where a thread is in lfstack_push or lfstack_pop, with its local variables.
  datatype Thread =
    | Idle
    | PushLoadCache(data: Data)
    | PushTop(data: Data, orig: Snap)
    | PushCacheCas(data: Data, orig: Snap, next: Ptr)
    | PushWriteData(data: Data, node: nat)
    | PushLoadStack(node: nat)
    | PushWriteNext(node: nat, orig: Snap)
    | PushStackCas(node: nat, orig: Snap)
    | PushDone(ok: bool)
    | PopLoadStack
    | PopTop(orig: Snap)
    | PopStackCas(orig: Snap, next: Ptr)
    | PopReadData(node: nat)
    | PopLoadCache(node: nat, data: Data)
    | PopWriteNext(node: nat, data: Data, orig: Snap)
    | PopCacheCas(node: nat, data: Data, orig: Snap)
    | PopDone(data: Data)

  // The last line holds history that no step looks at: the nodes linked from
  // either head, the successful exchanges so far, and the nodes whose `next`
  // has been written.
  datatype State = State(
    nodemax: nat, nodec: nat, cache: Head, stack: Head,
    next: seq<Ptr>, data: seq<Data>,
    threads: seq<Thread>,
    stackChain: seq<nat>, cacheChain: seq<nat>, stackX: nat, cacheX: nat, written: set<nat>)

  datatype Action =
    | CallPush(arg: Data)
    | CallPop
    | Run(spurious: bool)  // one step of the call in progress; a weak exchange may fail spuriously
    | Return

  ghost predicate Enabled(s: State, t: nat, a: Action) {
    && t < |s.threads|
    && match a
       case CallPush(_) => s.threads[t].Idle?
       case CallPop => s.threads[t].Idle?
       case Return => s.threads[t].PushDone? || s.threads[t].PopDone?
       case Run(_) => !s.threads[t].Idle? && !s.threads[t].PushDone? && !s.threads[t].PopDone?
  }

  function Goto(s: State, t: nat, pc: Thread): State
    requires t < |s.threads|
  {
    s.(threads := s.threads[t := pc])
  }

  function SnapStack(s: State): Snap { Snap(s.stack, s.stackX) }

  function SnapCache(s: State): Snap { Snap(s.cache, s.cacheX) }

  // Whatever the memory behind p holds.
  function ReadNext(s: State, p: Ptr): Ptr {
    if p.Node? && p.index < |s.next| then s.next[p.index] else Null
  }

  function ReadData(s: State, n: nat): Data {
    if n < |s.data| then s.data[n] else NIL
  }

  function WriteNext(s: State, n: nat, p: Ptr): State {
    s.(next := if n < |s.next| then s.next[n := p] else s.next, written := s.written + {n})
  }

  function WriteData(s: State, n: nat, d: Data): State {
    s.(data := if n < |s.data| then s.data[n := d] else s.data)
  }

  function Rest(chain: seq<nat>): seq<nat> { if chain == [] then [] else chain[1..] }

  // The four exchanges, when they succeed: a node leaves or enters a list.
  function TakeCache(s: State, t: nat, d: Data, orig: Snap, next: Ptr): State
    requires t < |s.threads| && orig.head.ptr.Node?
  {
    Goto(s, t, PushWriteData(d, orig.head.ptr.index)).(
      cache := Head(next, Bump(orig.head.gen)), cacheX := s.cacheX + 1, cacheChain := Rest(s.cacheChain))
  }

  function GiveStack(s: State, t: nat, n: nat, orig: Snap): State
    requires t < |s.threads|
  {
    Goto(s, t, PushDone(true)).(
      stack := Head(Node(n), Bump(orig.head.gen)), stackX := s.stackX + 1, stackChain := [n] + s.stackChain)
  }

  function TakeStack(s: State, t: nat, orig: Snap, next: Ptr): State
    requires t < |s.threads| && orig.head.ptr.Node?
  {
    Goto(s, t, PopReadData(orig.head.ptr.index)).(
      stack := Head(next, Bump(orig.head.gen)), stackX := s.stackX + 1, stackChain := Rest(s.stackChain))
  }

  function GiveCache(s: State, t: nat, n: nat, d: Data, orig: Snap): State
    requires t < |s.threads|
  {
    Goto(s, t, PopDone(d)).(
      cache := Head(Node(n), Bump(orig.head.gen)), cacheX := s.cacheX + 1, cacheChain := [n] + s.cacheChain)
  }

  // The cache looked empty: take the next node never used, or give up.
  function FetchAdd(s: State, t: nat, d: Data): State
    requires t < |s.threads|
  {
    Goto(s, t, if s.nodec >= s.nodemax then PushDone(false) else PushWriteData(d, s.nodec)).(
      nodec := Bump(s.nodec))
  }

  // One step of the call that thread t is in.  A failed exchange reloads `orig`.
  function RunStep(s: State, t: nat, spurious: bool): State
    requires t < |s.threads|
  {
    match s.threads[t]
    case PushLoadCache(d) => Goto(s, t, PushTop(d, SnapCache(s)))
    case PushTop(d, orig) =>
      if orig.head.ptr.Null? then FetchAdd(s, t, d)
      else Goto(s, t, PushCacheCas(d, orig, ReadNext(s, orig.head.ptr)))
    case PushCacheCas(d, orig, next) =>
      if s.cache == orig.head && !spurious && orig.head.ptr.Node? then
        TakeCache(s, t, d, orig, next)
      else Goto(s, t, PushTop(d, SnapCache(s)))
    case PushWriteData(d, n) => Goto(WriteData(s, n, d), t, PushLoadStack(n))
    case PushLoadStack(n) => Goto(s, t, PushWriteNext(n, SnapStack(s)))
    case PushWriteNext(n, orig) => Goto(WriteNext(s, n, orig.head.ptr), t, PushStackCas(n, orig))
    case PushStackCas(n, orig) =>
      if s.stack == orig.head && !spurious then
        GiveStack(s, t, n, orig)
      else Goto(s, t, PushWriteNext(n, SnapStack(s)))
    case PopLoadStack => Goto(s, t, PopTop(SnapStack(s)))
    case PopTop(orig) =>
      if orig.head.ptr.Null? then Goto(s, t, PopDone(NIL))
      else Goto(s, t, PopStackCas(orig, ReadNext(s, orig.head.ptr)))
    case PopStackCas(orig, next) =>
      if s.stack == orig.head && !spurious && orig.head.ptr.Node? then
        TakeStack(s, t, orig, next)
      else Goto(s, t, PopTop(SnapStack(s)))
    case PopReadData(n) => Goto(s, t, PopLoadCache(n, ReadData(s, n)))
    case PopLoadCache(n, d) => Goto(s, t, PopWriteNext(n, d, SnapCache(s)))
    case PopWriteNext(n, d, orig) => Goto(WriteNext(s, n, orig.head.ptr), t, PopCacheCas(n, d, orig))
    case PopCacheCas(n, d, orig) =>
      if s.cache == orig.head && !spurious then
        GiveCache(s, t, n, d, orig)
      else Goto(s, t, PopWriteNext(n, d, SnapCache(s)))
    case _ => s
  }

  function Next(s: State, t: nat, a: Action): State
    requires t < |s.threads|
  {
    match a
    case CallPush(d) => Goto(s, t, PushLoadCache(d))
    case CallPop => Goto(s, t, PopLoadStack)
    case Run(spurious) => RunStep(s, t, spurious)
    case Return => Goto(s, t, Idle)
  }

  // Between a thread's reading a head and the exchange that relies on the read, the
  // exchanges that hit that head are none or no multiple of 2^64, and `nodec` does not
  // overflow.
  ghost predicate Timely(s: State, t: nat)
    requires t < |s.threads|
  {
    match s.threads[t]
    case PushTop(_, orig) => orig.head.ptr.Null? ==> s.nodec + 1 < WORD
    case PushCacheCas(_, orig, _) => !TurnsApart(s.cacheX, orig.at)
    case PushStackCas(_, orig) => !TurnsApart(s.stackX, orig.at)
    case PopStackCas(orig, _) => !TurnsApart(s.stackX, orig.at)
    case PopCacheCas(_, _, orig) => !TurnsApart(s.cacheX, orig.at)
    case _ => true
  }

  // What lfstack_init leaves behind: the nodes themselves are not cleared.
  ghost predicate Init(s: State) {
    && s.nodec == 0
    && s.cache == Head(Null, 0) && s.stack == Head(Null, 0)
    && |s.next| == s.nodemax && |s.data| == s.nodemax
    && (forall t :: 0 <= t < |s.threads| ==> s.threads[t] == Idle)
    && s.stackChain == [] && s.cacheChain == [] && s.stackX == 0 && s.cacheX == 0 && s.written == {}
  }

  // A schedule names the thread and the action of every step.
  type Schedule = seq<(nat, Action)>

  ghost predicate IsRun(run: seq<State>, sched: Schedule) {
    && |run| == |sched| + 1
    && forall i :: 0 <= i < |sched| ==> StepOk(run[i], sched[i], run[i + 1])
  }

  ghost predicate StepOk(s: State, e: (nat, Action), s': State) {
    Enabled(s, e.0, e.1) && s' == Next(s, e.0, e.1)
  }

  ghost predicate TimelyRun(run: seq<State>, sched: Schedule)
    requires IsRun(run, sched)
  {
    forall i :: 0 <= i < |sched| ==> TimelyStep(run[i], sched[i])
  }

  ghost predicate TimelyStep(s: State, e: (nat, Action)) {
    e.0 < |s.threads| && (e.1.Run? ==> Timely(s, e.0))
  }
}
