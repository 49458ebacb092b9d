/** The pop+inc+push benchmark on the lock-free stack.

    Each thread pops an item, adds one to the counter in it with a plain read and a
    plain write, and pushes it back without looking at the result of the push.  That
    this is safe follows from counting over all threads: see `Counted`. */
module StackBenchmark {
  import opened LfStack
  import opened LfStackInvariant
  import opened LfStackObject
  import opened LfStackRefinement
  import opened AtomicStack
  import opened Words
  import R = Runs

  // Where a thread is in subr_stack_lockfree.
  datatype Client =
    | Between
    | InsidePop
    | Took(item: Data)
    | Loaded(item: Data, cnt: int)
    | Stored(item: Data)
    | InsidePush(item: Data)

  // `cnt` are the counters in the items.
  datatype Bench = Bench(s: State, clients: seq<Client>, cnt: map<Data, int>)

  ghost predicate CanStep(b: Bench, t: nat) {
    t < |b.clients| == |b.s.threads|
    && match b.clients[t]
       case Between => b.s.threads[t].Idle?
       case Stored(_) => b.s.threads[t].Idle?
       case Took(item) => item in b.cnt
       case Loaded(_, _) => true
       case InsidePop => !b.s.threads[t].Idle?
       case InsidePush(_) => !b.s.threads[t].Idle?
  }

  // The action of the stack that a step of thread t is, if it is one.
  function StackAction(b: Bench, t: nat, spurious: bool): Action
    requires t < |b.clients| == |b.s.threads|
  {
    match b.clients[t]
    case Between => CallPop
    case Stored(item) => CallPush(item)
    case _ => if b.s.threads[t].PopDone? || b.s.threads[t].PushDone? then Return else Run(spurious)
  }

  function Step(b: Bench, t: nat, spurious: bool): Bench
    requires t < |b.clients| == |b.s.threads|
    requires b.clients[t].Took? ==> b.clients[t].item in b.cnt
  {
    var s' := Next(b.s, t, StackAction(b, t, spurious));
    match b.clients[t]
    case Between => b.(s := s', clients := b.clients[t := InsidePop])
    case InsidePop =>
      if b.s.threads[t].PopDone? then
        var item := b.s.threads[t].data;
        b.(s := s', clients := b.clients[t := if item == NIL then Between else Took(item)])
      else b.(s := s')
    case Took(item) => b.(clients := b.clients[t := Loaded(item, b.cnt[item])])
    case Loaded(item, cnt) =>
      b.(clients := b.clients[t := Stored(item)], cnt := b.cnt[item := cnt + 1])
    case Stored(item) => b.(s := s', clients := b.clients[t := InsidePush(item)])
    case InsidePush(_) =>
      if b.s.threads[t].PushDone? then b.(s := s', clients := b.clients[t := Between]) else b.(s := s')
  }

  // After subr_stack_lockfree_init: the items that could be allocated, pushed one by one.
  ghost predicate Start(b: Bench, items: seq<Data>) {
    && Inv(b.s) && |b.clients| == |b.s.threads|
    && (forall t: nat :: t < |b.clients| ==> b.clients[t] == Between && b.s.threads[t] == Idle)
    && b.s.cacheChain == [] && b.s.nodec == |items| <= b.s.nodemax
    && multiset(Items(b.s)) == multiset(items)
    && NoDup(items) && NIL !in items
    && b.cnt.Keys == (set i | i in items)
  }

  ghost predicate IsBenchRun(run: seq<Bench>, sched: seq<(nat, bool)>, items: seq<Data>) {
    R.Is(BenchStep, run, sched) && Start(run[0], items)
  }

  // No exchange is late by full turns of the generation; nothing is asked about `nodec`.
  ghost predicate BenchStep(b: Bench, e: (nat, bool), b': Bench) {
    && CanStep(b, e.0)
    && (!(b.s.threads[e.0].PushTop?) ==> Timely(b.s, e.0))
    && b' == Step(b, e.0, e.1)
  }

  // ---- Who holds what ----

  // The thread holds an item but owns no node.
  predicate Bare(c: Client, th: Thread) {
    match c
    case Between => false
    case InsidePop => th.PopDone? && th.data != NIL
    case InsidePush(_) => InAlloc(th)
    case _ => true
  }

  function Bares(clients: seq<Client>, threads: seq<Thread>): nat
    requires |clients| == |threads|
  {
    if clients == [] then 0 else (if Bare(clients[0], threads[0]) then 1 else 0) + Bares(clients[1..], threads[1..])
  }

  lemma {:induction false} BaresUpdate(clients: seq<Client>, threads: seq<Thread>, t: nat, c: Client, th: Thread)
    requires t < |clients| == |threads|
    ensures Bares(clients[t := c], threads[t := th]) + (if Bare(clients[t], threads[t]) then 1 else 0)
         == Bares(clients, threads) + (if Bare(c, th) then 1 else 0)
  {
    if t == 0 {
      assert clients[t := c][1..] == clients[1..] && threads[t := th][1..] == threads[1..];
    } else {
      assert clients[t := c][1..] == clients[1..][t - 1 := c] && threads[t := th][1..] == threads[1..][t - 1 := th];
      BaresUpdate(clients[1..], threads[1..], t - 1, c, th);
    }
  }

  // The item in the hands of a thread, given the call it is in.
  function Held(c: Client, call: Call): multiset<Data> {
    match c
    case Between => multiset{}
    case InsidePop => if call.Popped? && call.data != NIL then multiset{call.data} else multiset{}
    case InsidePush(item) => if call.Pushing? then multiset{item} else multiset{}
    case Took(item) => multiset{item}
    case Loaded(item, _) => multiset{item}
    case Stored(item) => multiset{item}
  }

  function HeldAll(clients: seq<Client>, calls: seq<Call>): multiset<Data>
    requires |clients| == |calls|
  {
    if clients == [] then multiset{} else Held(clients[0], calls[0]) + HeldAll(clients[1..], calls[1..])
  }

  lemma {:induction false} Exchanged(a: multiset<Data>, b: multiset<Data>, c: multiset<Data>, d: multiset<Data>,
                                       e: multiset<Data>)
    requires b + c == d + e
    ensures (a + b) + c == (a + d) + e
  {
    assert (a + b) + c == a + (b + c) && (a + d) + e == a + (d + e);
  }

  lemma {:induction false} HeldUpdate(clients: seq<Client>, calls: seq<Call>, t: nat, c: Client, call: Call)
    requires t < |clients| == |calls|
    ensures HeldAll(clients[t := c], calls[t := call]) + Held(clients[t], calls[t])
         == HeldAll(clients, calls) + Held(c, call)
  {
    if t == 0 {
      assert clients[t := c][1..] == clients[1..] && calls[t := call][1..] == calls[1..];
    } else {
      assert clients[t := c][1..] == clients[1..][t - 1 := c] && calls[t := call][1..] == calls[1..][t - 1 := call];
      HeldUpdate(clients[1..], calls[1..], t - 1, c, call);
      Exchanged(Held(clients[0], calls[0]), HeldAll(clients[1..][t - 1 := c], calls[1..][t - 1 := call]),
                Held(clients[t], calls[t]), HeldAll(clients[1..], calls[1..]), Held(c, call));
    }
  }

  // The client and the stack agree on the call the thread is in, and a pop never
  // took a null pointer off the stack.
  predicate Agree(c: Client, th: Thread, call: Call) {
    match c
    case InsidePop => (InPop(th) || th.PopDone?) && (Owns(th) ==> call != Popped(NIL))
    case InsidePush(item) => !InPop(th) && (call == Pushing(item) || th == PushDone(true))
    case _ => th.Idle?
  }

  // No snapshot of the cache in a push is null.
  predicate SawNode(th: Thread) { th.PushTop? ==> th.orig.head.ptr.Node? }

  ghost predicate AgreeAt(s: State, clients: seq<Client>, t: nat)
    requires t < |clients| == |s.threads|
  {
    Agree(clients[t], s.threads[t], CallOf(s, s.threads[t])) && SawNode(s.threads[t])
  }

  ghost predicate AllAgree(s: State, clients: seq<Client>) {
    |clients| == |s.threads| && forall t: nat :: t < |clients| ==> AgreeAt(s, clients, t)
  }

  // k is the number of items.  There is a free node for every item that is in a
  // thread's hands without one, so a push always finds the cache not empty.
  ghost predicate Counted(s: State, clients: seq<Client>, k: nat) {
    && AllAgree(s, clients)
    && s.nodec == k <= s.nodemax
    && |s.cacheChain| == Bares(clients, s.threads)
  }

  // Every item is on the stack or in the hands of a thread, once.
  ghost predicate Conserved(s: State, clients: seq<Client>, items: seq<Data>) {
    && |clients| == |s.threads|
    && multiset(Items(s)) + HeldAll(clients, Calls(s)) == multiset(items)
  }

  lemma {:induction false} BareOne(clients: seq<Client>, threads: seq<Thread>, t: nat)
    requires t < |clients| == |threads| && Bare(clients[t], threads[t])
    ensures Bares(clients, threads) > 0
  {
    if t > 0 { BareOne(clients[1..], threads[1..], t - 1); }
  }

  // What a step of a pop does to the cache.
  ghost predicate PopMoved(s: State, t: nat, s': State)
    requires t < |s.threads| == |s'.threads|
  {
    var th, th' := s.threads[t], s'.threads[t];
    && s'.nodec == s.nodec && s'.nodemax == s.nodemax
    && |s'.cacheChain| == |s.cacheChain| + (if th.PopCacheCas? && th'.PopDone? then 1 else 0)
    && (InPop(th') || th'.PopDone?)
    && (th'.PopDone? ==> (th.PopTop? && th' == PopDone(NIL)) || (th.PopCacheCas? && th'.data == th.data))
    && (Owns(th') && !th.PopStackCas? ==> CallOf(s', th') == CallOf(s, th))
    && (Owns(th') && th.PopStackCas? ==> !th.orig.head.ptr.Null? && s.stack == th.orig.head)
  }

  lemma {:induction false} PopMoves(s: State, t: nat, spurious: bool)
    requires Inv(s) && t < |s.threads| && InPop(s.threads[t])
    ensures PopMoved(s, t, RunStep(s, t, spurious))
  {
    if Owns(s.threads[t]) { PopFreeMoves(s, t, spurious); } else { PopTakeMoves(s, t, spurious); }
  }

  lemma {:induction false} PopTakeMoves(s: State, t: nat, spurious: bool)
    requires Inv(s) && t < |s.threads| && InPop(s.threads[t]) && !Owns(s.threads[t])
    ensures PopMoved(s, t, RunStep(s, t, spurious))
  {
    assert ThreadOk(s, s.threads[t]);
  }

  lemma {:induction false} PopFreeMoves(s: State, t: nat, spurious: bool)
    requires Inv(s) && t < |s.threads| && InPop(s.threads[t]) && Owns(s.threads[t])
    ensures PopMoved(s, t, RunStep(s, t, spurious))
  {
    if s.threads[t].PopCacheCas? { PopGiveMoves(s, t, spurious); } else { PopReadMoves(s, t, spurious); }
  }

  lemma {:induction false} PopGiveMoves(s: State, t: nat, spurious: bool)
    requires t < |s.threads| && s.threads[t].PopCacheCas?
    ensures PopMoved(s, t, RunStep(s, t, spurious))
  {
  }

  lemma {:induction false} PopReadMoves(s: State, t: nat, spurious: bool)
    requires t < |s.threads| && InPop(s.threads[t]) && Owns(s.threads[t]) && !s.threads[t].PopCacheCas?
    ensures PopMoved(s, t, RunStep(s, t, spurious))
  {
  }

  ghost predicate PushMoved(s: State, t: nat, s': State)
    requires t < |s.threads| == |s'.threads|
  {
    var th, th' := s.threads[t], s'.threads[t];
    && s'.nodec == s.nodec && s'.nodemax == s.nodemax && SawNode(th')
    && |s'.cacheChain| + (if InAlloc(th) && !InAlloc(th') then 1 else 0) == |s.cacheChain|
    && (InAlloc(th') ==> InAlloc(th)) && !InPop(th')
    && (CallOf(s', th') == CallOf(s, th) || th' == PushDone(true))
  }

  // A push that sees the cache not empty never touches the counter of fresh nodes.
  lemma {:induction false} PushMoves(s: State, t: nat, spurious: bool)
    requires Inv(s) && t < |s.threads| && Enabled(s, t, Run(spurious)) && Timely(s, t)
    requires !InPop(s.threads[t]) && SawNode(s.threads[t]) && (InAlloc(s.threads[t]) ==> s.cacheChain != [])
    ensures PushMoved(s, t, RunStep(s, t, spurious))
  {
    if InAlloc(s.threads[t]) {
      AllocMoves(s, t, spurious);
    } else if s.threads[t].PushStackCas? {
      LinkMoves(s, t, spurious);
    } else {
      FillMoves(s, t, spurious);
    }
  }

  lemma {:induction false} LinkMoves(s: State, t: nat, spurious: bool)
    requires Inv(s) && t < |s.threads| && s.threads[t].PushStackCas?
    ensures PushMoved(s, t, RunStep(s, t, spurious))
  {
  }

  lemma {:induction false} FillMoves(s: State, t: nat, spurious: bool)
    requires Inv(s) && Enabled(s, t, Run(spurious))
    requires !InPop(s.threads[t]) && !InAlloc(s.threads[t]) && !s.threads[t].PushStackCas?
    ensures PushMoved(s, t, RunStep(s, t, spurious))
  {
    assert OwnerOk(s, s.threads[t]);
    OwnNodeMoves(s, t, spurious);
  }

  lemma {:induction false} OwnNodeMoves(s: State, t: nat, spurious: bool)
    requires t < |s.threads| && Owns(s.threads[t]) && s.threads[t].node < |s.data|
    requires !InPop(s.threads[t]) && !s.threads[t].PushStackCas?
    ensures PushMoved(s, t, RunStep(s, t, spurious))
  {
  }

  lemma {:induction false} AllocMoves(s: State, t: nat, spurious: bool)
    requires Inv(s) && t < |s.threads| && Enabled(s, t, Run(spurious)) && Timely(s, t)
    requires InAlloc(s.threads[t]) && SawNode(s.threads[t]) && s.cacheChain != []
    ensures PushMoved(s, t, RunStep(s, t, spurious))
  {
    var th := s.threads[t];
    assert ThreadOk(s, th);
    if th.PushCacheCas? && s.cache == th.orig.head && !spurious { TakeCacheFresh(s, t, th.data, th.orig, th.next); }
  }

  // What a step keeps of the agreement, given what it does to thread t.
  lemma {:induction false} AgreeKept(s: State, s': State, clients: seq<Client>, t: nat, c: Client)
    requires AllAgree(s, clients) && t < |clients| == |s'.threads|
    requires s'.threads == s.threads[t := s'.threads[t]]
    requires forall u: nat :: u < |clients| && u != t ==> CallOf(s', s'.threads[u]) == CallOf(s, s.threads[u])
    requires Agree(c, s'.threads[t], CallOf(s', s'.threads[t])) && SawNode(s'.threads[t])
    ensures AllAgree(s', clients[t := c])
  {
    var clients' := clients[t := c];
    forall u: nat | u < |clients| ensures AgreeAt(s', clients', u) { assert AgreeAt(s, clients, u); }
  }

  lemma {:induction false} OtherCalls(s: State, s': State, t: nat)
    requires t < |s.threads| == |s'.threads| && Calls(s') == Calls(s)[t := CallOf(s', s'.threads[t])]
    ensures forall u: nat :: u < |s.threads| && u != t ==> CallOf(s', s'.threads[u]) == CallOf(s, s.threads[u])
  {
    forall u: nat | u < |s.threads| && u != t ensures CallOf(s', s'.threads[u]) == CallOf(s, s.threads[u]) {
      assert Calls(s')[u] == Calls(s)[u];
    }
  }

  // What a step of thread t, whose client is at c afterwards, must do to the counts.
  ghost predicate CountMoved(s: State, s': State, clients: seq<Client>, t: nat, c: Client)
    requires t < |clients| && |clients| == |s.threads| == |s'.threads|
  {
    var th, th' := s.threads[t], s'.threads[t];
    && s'.nodec == s.nodec && s'.nodemax == s.nodemax
    && |s'.cacheChain| + (if Bare(clients[t], th) then 1 else 0) == |s.cacheChain| + (if Bare(c, th') then 1 else 0)
    && Agree(c, th', CallOf(s', th')) && SawNode(th')
  }

  lemma {:induction false} CountedMove(s: State, s': State, clients: seq<Client>, k: nat, t: nat, a: Action, c: Client)
    requires Inv(s) && Counted(s, clients, k) && Enabled(s, t, a) && (a.Run? ==> Timely(s, t)) && t < |clients|
    requires |s'.threads| == |s.threads| && CountMoved(s, s', clients, t, c)
    requires s' == Next(s, t, a)
    ensures Inv(s') && Counted(s', clients[t := c], k)
  {
    InvStep(s, t, a);
    StepCalls(s, t, a);
    OtherCalls(s, s', t);
    BaresUpdate(clients, s.threads, t, c, s'.threads[t]);
    AgreeKept(s, s', clients, t, c);
  }

  // A step that only the client takes.
  lemma {:induction false} CountedLocal(s: State, clients: seq<Client>, k: nat, t: nat, c: Client)
    requires Inv(s) && Counted(s, clients, k) && t < |clients| && s.threads[t].Idle?
    requires clients[t].Took? || clients[t].Loaded?
    requires c.Loaded? || c.Stored?
    ensures Counted(s, clients[t := c], k)
  {
    BaresUpdate(clients, s.threads, t, c, Idle);
    assert s.threads[t := Idle] == s.threads;
    var clients' := clients[t := c];
    forall u: nat | u < |clients| ensures AgreeAt(s, clients', u) { assert AgreeAt(s, clients, u); }
  }

  lemma {:induction false} PopRunCounted(s: State, clients: seq<Client>, k: nat, t: nat, spurious: bool)
    requires Inv(s) && Counted(s, clients, k) && t < |clients| && clients[t].InsidePop?
    requires Enabled(s, t, Run(spurious)) && Timely(s, t) && NIL !in Items(s)
    ensures Inv(RunStep(s, t, spurious)) && Counted(RunStep(s, t, spurious), clients, k)
  {
    assert AgreeAt(s, clients, t);
    PopMoves(s, t, spurious);
    PopAgrees(s, t, spurious);
    assert clients[t := InsidePop] == clients;
    CountedMove(s, RunStep(s, t, spurious), clients, k, t, Run(spurious), InsidePop);
  }

  // A pop never takes a null pointer off a stack that holds none.
  lemma {:induction false} PopAgrees(s: State, t: nat, spurious: bool)
    requires Inv(s) && Enabled(s, t, Run(spurious)) && Timely(s, t) && NIL !in Items(s)
    requires InPop(s.threads[t]) && Agree(InsidePop, s.threads[t], CallOf(s, s.threads[t]))
    ensures t < |RunStep(s, t, spurious).threads|
    ensures var s' := RunStep(s, t, spurious);
            Agree(InsidePop, s'.threads[t], CallOf(s', s'.threads[t])) && SawNode(s'.threads[t])
  {
    PopMoves(s, t, spurious);
    if s.threads[t].PopStackCas? && s.stack == s.threads[t].orig.head && !spurious { PopTakesItem(s, t); }
  }

  // What it takes is an item of the stack.
  lemma {:induction false} PopTakesItem(s: State, t: nat)
    requires Inv(s) && t < |s.threads| && s.threads[t].PopStackCas? && Timely(s, t) && NIL !in Items(s)
    requires s.stack == s.threads[t].orig.head
    ensures var s' := RunStep(s, t, false);
            t < |s'.threads| && s'.threads[t].PopReadData? && CallOf(s', s'.threads[t]) != Popped(NIL)
  {
    var th := s.threads[t];
    PopTakesEffect(s, t, th.orig, th.next);
    assert ReadData(s, th.orig.head.ptr.index) in Items(s);
  }

  lemma {:induction false} PushRunCounted(s: State, clients: seq<Client>, k: nat, t: nat, spurious: bool)
    requires Inv(s) && Counted(s, clients, k) && t < |clients| && clients[t].InsidePush?
    requires Enabled(s, t, Run(spurious)) && (!s.threads[t].PushTop? ==> Timely(s, t))
    ensures Inv(RunStep(s, t, spurious)) && Counted(RunStep(s, t, spurious), clients, k)
  {
    assert AgreeAt(s, clients, t);
    if InAlloc(s.threads[t]) { BareOne(clients, s.threads, t); }
    PushMoves(s, t, spurious);
    assert clients[t := clients[t]] == clients;
    CountedMove(s, RunStep(s, t, spurious), clients, k, t, Run(spurious), clients[t]);
  }

  lemma {:induction false} CountedStep(b: Bench, e: (nat, bool), b': Bench, k: nat)
    requires Inv(b.s) && Counted(b.s, b.clients, k) && BenchStep(b, e, b')
    requires NIL !in Items(b.s)
    ensures Inv(b'.s) && Counted(b'.s, b'.clients, k)
  {
    var c := b.clients[e.0];
    if c.Between? || c.Stored? {
      CountedBegin(b, e, b', k);
    } else if c.Took? || c.Loaded? {
      assert AgreeAt(b.s, b.clients, e.0);
      CountedLocal(b.s, b.clients, k, e.0, b'.clients[e.0]);
    } else if b.s.threads[e.0].PopDone? || b.s.threads[e.0].PushDone? {
      CountedEnd(b, e, b', k);
    } else {
      CountedRun(b, e, b', k);
    }
  }

  lemma {:induction false} CountedRun(b: Bench, e: (nat, bool), b': Bench, k: nat)
    requires Inv(b.s) && Counted(b.s, b.clients, k) && BenchStep(b, e, b') && NIL !in Items(b.s)
    requires b.clients[e.0].InsidePop? || b.clients[e.0].InsidePush?
    requires !b.s.threads[e.0].PopDone? && !b.s.threads[e.0].PushDone?
    ensures Inv(b'.s) && Counted(b'.s, b'.clients, k)
  {
    assert b'.s == RunStep(b.s, e.0, e.1) && b'.clients == b.clients;
    if b.clients[e.0].InsidePop? {
      assert AgreeAt(b.s, b.clients, e.0);
      PopRunCounted(b.s, b.clients, k, e.0, e.1);
    } else {
      PushRunCounted(b.s, b.clients, k, e.0, e.1);
    }
  }

  // A call begins, or ends.
  lemma {:induction false} CountedBegin(b: Bench, e: (nat, bool), b': Bench, k: nat)
    requires Inv(b.s) && Counted(b.s, b.clients, k) && BenchStep(b, e, b')
    requires b.clients[e.0].Between? || b.clients[e.0].Stored?
    ensures Inv(b'.s) && Counted(b'.s, b'.clients, k)
  {
    assert AgreeAt(b.s, b.clients, e.0);
    CountedMove(b.s, b'.s, b.clients, k, e.0, StackAction(b, e.0, e.1), b'.clients[e.0]);
  }

  lemma {:induction false} CountedEnd(b: Bench, e: (nat, bool), b': Bench, k: nat)
    requires Inv(b.s) && Counted(b.s, b.clients, k) && BenchStep(b, e, b')
    requires b.clients[e.0].InsidePop? || b.clients[e.0].InsidePush?
    requires b.s.threads[e.0].PopDone? || b.s.threads[e.0].PushDone?
    ensures Inv(b'.s) && Counted(b'.s, b'.clients, k)
  {
    assert AgreeAt(b.s, b.clients, e.0);
    CountedMove(b.s, b'.s, b.clients, k, e.0, Return, b'.clients[e.0]);
  }

  // ---- No item is lost or doubled ----

  lemma {:induction false} ConservedCalls(a: Spec, clients: seq<Client>, t: nat, a': Spec, c: Client)
    requires t < |clients| == |a.calls| == |a'.calls| && a'.calls == a.calls[t := a'.calls[t]]
    requires multiset(a'.items) + Held(c, a'.calls[t]) == multiset(a.items) + Held(clients[t], a.calls[t])
    ensures multiset(a'.items) + HeldAll(clients[t := c], a'.calls) == multiset(a.items) + HeldAll(clients, a.calls)
  {
    HeldUpdate(clients, a.calls, t, c, a'.calls[t]);
    Rebalance(multiset(a.items), multiset(a'.items), HeldAll(clients, a.calls), HeldAll(clients[t := c], a'.calls),
              Held(clients[t], a.calls[t]), Held(c, a'.calls[t]));
  }

  lemma {:induction false} ConservedMove(s: State, clients: seq<Client>, t: nat, a: Action, c: Client, items: seq<Data>)
    requires Inv(s) && Conserved(s, clients, items) && t < |clients| && Enabled(s, t, a)
    requires var s' := Next(s, t, a);
      |Calls(s')| == |Calls(s)| ==>
      multiset(Items(s')) + Held(c, Calls(s')[t]) == multiset(Items(s)) + Held(clients[t], Calls(s)[t])
    ensures Conserved(Next(s, t, a), clients[t := c], items)
  {
    StepCalls(s, t, a);
    ConservedCalls(Abs(s), clients, t, Abs(Next(s, t, a)), c);
  }

  // A pop's effect moves the top item from the stack into the thread's hands.
  lemma {:induction false} PopEvent(a: Spec, t: nat, a': Spec)
    requires SpecStep(a, t, Inside, a') && NIL !in a.items
    requires a.calls[t].Popping? || a.calls[t].Popped?
    ensures |a'.calls| == |a.calls|
    ensures multiset(a'.items) + Held(InsidePop, a'.calls[t]) == multiset(a.items) + Held(InsidePop, a.calls[t])
  {
    if a.items != [] { assert a.items == [a.items[0]] + a.items[1..]; }
  }

  // A push's effect moves it back, unless the push gives up.
  lemma {:induction false} PushEvent(a: Spec, t: nat, a': Spec, item: Data)
    requires SpecStep(a, t, Inside, a')
    requires a.calls[t] == Pushing(item) || a.calls[t].Pushed?
    ensures |a'.calls| == |a.calls|
    ensures a'.calls[t] != Pushed(false) ==>
      multiset(a'.items) + Held(InsidePush(item), a'.calls[t]) == multiset(a.items) + Held(InsidePush(item), a.calls[t])
  {
  }

  lemma {:induction false} Rebalance(i: multiset<Data>, i': multiset<Data>, h: multiset<Data>, h': multiset<Data>,
                  x: multiset<Data>, y: multiset<Data>)
    requires h' + x == h + y && i' + y == i + x
    ensures i' + h' == i + h
  {
    forall d ensures (i' + h')[d] == (i + h)[d] {
      assert (h' + x)[d] == (h + y)[d] && (i' + y)[d] == (i + x)[d];
    }
  }

  // How many of d each thread holds.
  function Holdings(clients: seq<Client>, calls: seq<Call>, d: Data): (n: seq<nat>)
    requires |clients| == |calls|
    ensures |n| == |clients| && forall t :: 0 <= t < |n| ==> n[t] == Held(clients[t], calls[t])[d]
  {
    seq(|clients|, t requires 0 <= t < |clients| == |calls| => Held(clients[t], calls[t])[d])
  }

  function Total(n: seq<nat>): nat { if n == [] then 0 else n[0] + Total(n[1..]) }

  lemma {:induction false} HoldingsAdd(clients: seq<Client>, calls: seq<Call>, d: Data)
    requires |clients| == |calls|
    ensures HeldAll(clients, calls)[d] == Total(Holdings(clients, calls, d))
  {
    if clients != [] {
      HoldingsAdd(clients[1..], calls[1..], d);
      assert Holdings(clients, calls, d)[1..] == Holdings(clients[1..], calls[1..], d);
    }
  }

  lemma {:induction false} OneOfTotal(n: seq<nat>, t: nat)
    requires t < |n|
    ensures n[t] <= Total(n)
  {
    if t > 0 { OneOfTotal(n[1..], t - 1); }
  }

  lemma {:induction false} TwoOfTotal(n: seq<nat>, t: nat, u: nat)
    requires t < u < |n|
    ensures n[t] + n[u] <= Total(n)
  {
    if t == 0 { OneOfTotal(n[1..], u - 1); } else { TwoOfTotal(n[1..], t - 1, u - 1); }
  }

  lemma {:induction false} HeldMember(clients: seq<Client>, calls: seq<Call>, t: nat, d: Data)
    requires t < |clients| == |calls|
    ensures Held(clients[t], calls[t])[d] <= HeldAll(clients, calls)[d]
  {
    HoldingsAdd(clients, calls, d);
    OneOfTotal(Holdings(clients, calls, d), t);
  }

  lemma {:induction false} HeldTwice(clients: seq<Client>, calls: seq<Call>, t: nat, u: nat, d: Data)
    requires t < u < |clients| == |calls|
    ensures Held(clients[t], calls[t])[d] + Held(clients[u], calls[u])[d] <= HeldAll(clients, calls)[d]
  {
    HoldingsAdd(clients, calls, d);
    TwoOfTotal(Holdings(clients, calls, d), t, u);
  }

  lemma {:induction false} NoDupOnce(items: seq<Data>, d: Data)
    requires NoDup(items)
    ensures multiset(items)[d] <= 1
  {
    if items != [] {
      assert items == [items[0]] + items[1..];
      NoDupOnce(items[1..], d);
    }
  }

  // No two threads hold the same item, and an item held is not on the stack.
  lemma {:induction false} HeldByOne(s: State, clients: seq<Client>, items: seq<Data>, t: nat, d: Data)
    requires Conserved(s, clients, items) && NoDup(items) && t < |clients|
    requires d in Held(clients[t], Calls(s)[t])
    ensures d in items && d !in Items(s)
    ensures forall u: nat :: u < |clients| && u != t ==> d !in Held(clients[u], Calls(s)[u])
  {
    var m, h := multiset(Items(s)), HeldAll(clients, Calls(s));
    NoDupOnce(items, d);
    assert (m + h)[d] == multiset(items)[d];
    HeldMember(clients, Calls(s), t, d);
    assert d in multiset(items);
    forall u: nat | u < |clients| && u != t ensures d !in Held(clients[u], Calls(s)[u]) {
      if t < u { HeldTwice(clients, Calls(s), t, u, d); } else { HeldTwice(clients, Calls(s), u, t, d); }
    }
    assert d in m <==> d in Items(s);
  }

  lemma {:induction false} ItemsAreItems(s: State, clients: seq<Client>, items: seq<Data>)
    requires Conserved(s, clients, items) && NIL !in items
    ensures NIL !in Items(s)
  {
    assert (multiset(Items(s)) + HeldAll(clients, Calls(s)))[NIL] == multiset(items)[NIL];
  }

  lemma {:induction false} PopRunConserved(s: State, clients: seq<Client>, t: nat, spurious: bool, items: seq<Data>)
    requires Inv(s) && Conserved(s, clients, items) && AllAgree(s, clients) && NIL !in Items(s)
    requires t < |clients| && clients[t].InsidePop? && Enabled(s, t, Run(spurious)) && Timely(s, t)
    ensures Conserved(RunStep(s, t, spurious), clients, items)
  {
    assert AgreeAt(s, clients, t);
    StepRefines(s, t, Run(spurious));
    PopEvent(Abs(s), t, Abs(RunStep(s, t, spurious)));
    assert clients[t := InsidePop] == clients;
    ConservedMove(s, clients, t, Run(spurious), InsidePop, items);
  }

  lemma {:induction false} PushRunConserved(s: State, s': State, clients: seq<Client>, t: nat, spurious: bool,
                                              items: seq<Data>)
    requires Inv(s) && Conserved(s, clients, items) && AllAgree(s, clients) && AllAgree(s', clients)
    requires t < |clients| && clients[t].InsidePush? && Enabled(s, t, Run(spurious)) && Timely(s, t)
    requires s' == RunStep(s, t, spurious)
    ensures Conserved(s', clients, items)
  {
    assert AgreeAt(s, clients, t) && AgreeAt(s', clients, t);
    StepRefines(s, t, Run(spurious));
    PushEvent(Abs(s), t, Abs(s'), clients[t].item);
    StepCalls(s, t, Run(spurious));
    assert clients[t := clients[t]] == clients;
    ConservedCalls(Abs(s), clients, t, Abs(s'), clients[t]);
  }

  // ---- The counters in the items ----

  function Sum(items: seq<Data>, cnt: map<Data, int>): int
    requires forall i :: i in items ==> i in cnt
  {
    if items == [] then 0 else cnt[items[0]] + Sum(items[1..], cnt)
  }

  // What a thread loaded is still in the counter when it stores: nobody else holds the item.
  ghost predicate CountersOk(b: Bench, items: seq<Data>) {
    && b.cnt.Keys == (set i | i in items)
    && forall t: nat :: t < |b.clients| && b.clients[t].Loaded? ==> LoadedOk(b, t)
  }

  ghost predicate LoadedOk(b: Bench, t: nat)
    requires t < |b.clients| && b.clients[t].Loaded?
  {
    b.clients[t].item in b.cnt && b.cnt[b.clients[t].item] == b.clients[t].cnt
  }

  lemma {:induction false} HeldHere(b: Bench, items: seq<Data>, t: nat, d: Data)
    requires Conserved(b.s, b.clients, items) && NoDup(items) && t < |b.clients|
    requires d in Held(b.clients[t], Calls(b.s)[t])
    ensures d in items
    ensures forall u: nat :: u < |b.clients| && u != t && b.clients[u].Loaded? ==> b.clients[u].item != d
  {
    HeldByOne(b.s, b.clients, items, t, d);
    forall u: nat | u < |b.clients| && u != t && b.clients[u].Loaded? ensures b.clients[u].item != d {
      assert d !in Held(b.clients[u], Calls(b.s)[u]);
    }
  }

  // The store of the incremented counter.
  lemma {:induction false} StoreCounts(b: Bench, t: nat, items: seq<Data>)
    requires Conserved(b.s, b.clients, items) && NoDup(items) && CountersOk(b, items)
    requires t < |b.clients| && b.clients[t].Loaded?
    ensures CountersOk(Step(b, t, false), items)
  {
    var b' := Step(b, t, false);
    HeldHere(b, items, t, b.clients[t].item);
    assert LoadedOk(b, t);
    forall u: nat | u < |b'.clients| && b'.clients[u].Loaded? ensures LoadedOk(b', u) { assert LoadedOk(b, u); }
  }

  lemma {:induction false} CountersStep(b: Bench, e: (nat, bool), b': Bench, items: seq<Data>)
    requires Conserved(b.s, b.clients, items) && NoDup(items) && CountersOk(b, items) && BenchStep(b, e, b')
    ensures CountersOk(b', items)
  {
    if b.clients[e.0].Loaded? { StoreCounts(b, e.0, items); } else { OtherStepCounts(b, e, b', items); }
  }

  lemma {:induction false} OtherStepCounts(b: Bench, e: (nat, bool), b': Bench, items: seq<Data>)
    requires CountersOk(b, items) && BenchStep(b, e, b') && !b.clients[e.0].Loaded?
    ensures CountersOk(b', items)
  {
    OtherStepKeeps(b, e, b');
    forall u: nat | u < |b'.clients| && b'.clients[u].Loaded? ensures LoadedOk(b', u) {
      if u != e.0 { assert LoadedOk(b, u); }
    }
  }

  lemma {:induction false} OtherStepKeeps(b: Bench, e: (nat, bool), b': Bench)
    requires BenchStep(b, e, b') && !b.clients[e.0].Loaded?
    ensures b'.cnt == b.cnt && |b'.clients| == |b.clients|
    ensures forall u: nat :: u < |b.clients| && u != e.0 ==> b'.clients[u] == b.clients[u]
    ensures b'.clients[e.0].Loaded? ==>
              b'.clients[e.0].item in b.cnt && b'.clients[e.0].cnt == b.cnt[b'.clients[e.0].item]
  {
  }

  // An item on its way back: incremented, and its push not ended.
  predicate Returns(c: Client, d: Data) { c == Stored(d) || c == InsidePush(d) }

  function Pending(clients: seq<Client>, d: Data): nat {
    if clients == [] then 0 else (if Returns(clients[0], d) then 1 else 0) + Pending(clients[1..], d)
  }

  lemma {:induction false} PendingUpdate(clients: seq<Client>, t: nat, c: Client, d: Data)
    requires t < |clients|
    ensures Pending(clients[t := c], d) + (if Returns(clients[t], d) then 1 else 0)
         == Pending(clients, d) + (if Returns(c, d) then 1 else 0)
  {
    if t == 0 {
      assert clients[t := c][1..] == clients[1..];
    } else {
      assert clients[t := c][1..] == clients[1..][t - 1 := c];
      PendingUpdate(clients[1..], t - 1, c, d);
    }
  }

  // The step is the return of a push of item d.
  predicate EndsPush(b: Bench, e: (nat, bool), b': Bench, d: Data) {
    && e.0 < |b.clients| && e.0 < |b'.clients|
    && b.clients[e.0] == InsidePush(d) && b'.clients[e.0] == Between
  }

  // How many pushes of item d the first i steps have ended.
  function Ended(run: seq<Bench>, sched: seq<(nat, bool)>, i: nat, d: Data): nat
    requires i < |run| && i <= |sched|
  {
    if i == 0 then 0
    else Ended(run, sched, i - 1, d) + if EndsPush(run[i - 1], sched[i - 1], run[i], d) then 1 else 0
  }

  lemma {:induction false} StepMovesOne(b: Bench, e: (nat, bool), b': Bench)
    requires BenchStep(b, e, b')
    ensures |b'.clients| == |b.clients| && b'.clients == b.clients[e.0 := b'.clients[e.0]]
  {
  }

  // What the step does to the counter of d and to where thread e.0 is.
  lemma {:induction false} StepCounts(b: Bench, e: (nat, bool), b': Bench, items: seq<Data>, d: Data)
    requires CountersOk(b, items) && BenchStep(b, e, b') && d in items
    requires |b'.clients| == |b.clients|
    ensures d in b.cnt && d in b'.cnt
    ensures var c, c' := b.clients[e.0], b'.clients[e.0];
            b'.cnt[d] + (if Returns(c, d) then 1 else 0) ==
            b.cnt[d] + (if Returns(c', d) then 1 else 0) + if EndsPush(b, e, b', d) then 1 else 0
  {
    if b.clients[e.0].Loaded? { assert LoadedOk(b, e.0); } else { OtherStepKeeps(b, e, b'); }
  }

  lemma {:induction false} CountStep(b: Bench, e: (nat, bool), b': Bench, items: seq<Data>, d: Data)
    requires CountersOk(b, items) && BenchStep(b, e, b') && d in items
    ensures d in b.cnt && d in b'.cnt
    ensures b'.cnt[d] + Pending(b.clients, d) ==
            b.cnt[d] + Pending(b'.clients, d) + if EndsPush(b, e, b', d) then 1 else 0
  {
    StepMovesOne(b, e, b');
    StepCounts(b, e, b', items, d);
    PendingUpdate(b.clients, e.0, b'.clients[e.0], d);
  }

  // ---- All of it, over every run ----

  ghost predicate BenchInv(b: Bench, items: seq<Data>) {
    && Inv(b.s) && Counted(b.s, b.clients, |items|) && Conserved(b.s, b.clients, items) && CountersOk(b, items)
    && NoDup(items) && NIL !in items
  }

  lemma {:induction false} NothingHeld(clients: seq<Client>, threads: seq<Thread>, calls: seq<Call>)
    requires |clients| == |threads| == |calls| && forall t: nat :: t < |clients| ==> clients[t] == Between
    ensures Bares(clients, threads) == 0 && HeldAll(clients, calls) == multiset{}
  {
    if clients != [] { NothingHeld(clients[1..], threads[1..], calls[1..]); }
  }

  lemma {:induction false} StartInv(b: Bench, items: seq<Data>)
    requires Start(b, items)
    ensures BenchInv(b, items)
  {
    NothingHeld(b.clients, b.s.threads, Calls(b.s));
    forall t: nat | t < |b.clients| ensures AgreeAt(b.s, b.clients, t) {}
  }

  lemma {:induction false} QuietConserved(s: State, clients: seq<Client>, t: nat, a: Action, c: Client,
                                            items: seq<Data>)
    requires Inv(s) && Conserved(s, clients, items) && Enabled(s, t, a) && !a.Run? && t < |clients|
    requires Held(c, CallOf(s, Next(s, t, a).threads[t])) == Held(clients[t], CallOf(s, s.threads[t]))
    ensures Conserved(Next(s, t, a), clients[t := c], items)
  {
    StepCalls(s, t, a);
    QuietItems(s, t, a);
    ConservedCalls(Abs(s), clients, t, Abs(Next(s, t, a)), c);
  }

  lemma {:induction false} QuietItems(s: State, t: nat, a: Action)
    requires t < |s.threads| && !a.Run?
    ensures Items(Next(s, t, a)) == Items(s)
    ensures CallOf(Next(s, t, a), Next(s, t, a).threads[t]) == CallOf(s, Next(s, t, a).threads[t])
  {
  }

  lemma {:induction false} PopConserved(b: Bench, t: nat, spurious: bool, items: seq<Data>)
    requires Inv(b.s) && AllAgree(b.s, b.clients) && Conserved(b.s, b.clients, items) && NIL !in Items(b.s)
    requires CanStep(b, t) && Timely(b.s, t) && b.clients[t].InsidePop?
    ensures Conserved(Step(b, t, spurious).s, Step(b, t, spurious).clients, items)
  {
    assert AgreeAt(b.s, b.clients, t);
    if b.s.threads[t].PopDone? {
      QuietConserved(b.s, b.clients, t, Return, Step(b, t, spurious).clients[t], items);
    } else {
      PopRunConserved(b.s, b.clients, t, spurious, items);
    }
  }

  lemma {:induction false} PushConserved(b: Bench, t: nat, spurious: bool, items: seq<Data>)
    requires Inv(b.s) && AllAgree(b.s, b.clients) && Conserved(b.s, b.clients, items)
    requires CanStep(b, t) && Timely(b.s, t) && b.clients[t].InsidePush?
    requires AllAgree(Step(b, t, spurious).s, Step(b, t, spurious).clients)
    ensures Conserved(Step(b, t, spurious).s, Step(b, t, spurious).clients, items)
  {
    assert AgreeAt(b.s, b.clients, t);
    if b.s.threads[t].PushDone? {
      QuietConserved(b.s, b.clients, t, Return, Between, items);
    } else {
      PushRunConserved(b.s, RunStep(b.s, t, spurious), b.clients, t, spurious, items);
    }
  }

  lemma {:induction false} BeginConserved(b: Bench, t: nat, items: seq<Data>)
    requires Inv(b.s) && AllAgree(b.s, b.clients) && Conserved(b.s, b.clients, items)
    requires CanStep(b, t) && (b.clients[t].Between? || b.clients[t].Stored?)
    ensures Conserved(Step(b, t, false).s, Step(b, t, false).clients, items)
  {
    var a := StackAction(b, t, false);
    var c := Step(b, t, false).clients[t];
    BeginHolds(b, t);
    QuietConserved(b.s, b.clients, t, a, c, items);
  }

  lemma {:induction false} BeginHolds(b: Bench, t: nat)
    requires AllAgree(b.s, b.clients) && CanStep(b, t) && (b.clients[t].Between? || b.clients[t].Stored?)
    ensures var a := StackAction(b, t, false); var c := Step(b, t, false).clients[t];
            && Enabled(b.s, t, a) && !a.Run?
            && Held(c, CallOf(b.s, Next(b.s, t, a).threads[t])) == Held(b.clients[t], CallOf(b.s, b.s.threads[t]))
  {
    assert AgreeAt(b.s, b.clients, t);
  }

  lemma {:induction false} ConservedStep(b: Bench, e: (nat, bool), b': Bench, items: seq<Data>)
    requires Inv(b.s) && Counted(b.s, b.clients, |items|) && Conserved(b.s, b.clients, items) && NIL !in items
    requires BenchStep(b, e, b') && Counted(b'.s, b'.clients, |items|)
    ensures Conserved(b'.s, b'.clients, items)
  {
    var t := e.0;
    ItemsAreItems(b.s, b.clients, items);
    if b.clients[t].Took? || b.clients[t].Loaded? {
      LocalConserved(b, t, b'.clients[t], items);
    } else if b.clients[t].InsidePop? {
      PopConserved(b, t, e.1, items);
    } else if b.clients[t].InsidePush? {
      assert AgreeAt(b.s, b.clients, t);
      PushConserved(b, t, e.1, items);
    } else {
      BeginConserved(b, t, items);
    }
  }

  lemma {:induction false} LocalConserved(b: Bench, t: nat, c: Client, items: seq<Data>)
    requires Conserved(b.s, b.clients, items) && t < |b.clients|
    requires Held(c, Calls(b.s)[t]) == Held(b.clients[t], Calls(b.s)[t])
    ensures Conserved(b.s, b.clients[t := c], items)
  {
    ConservedCalls(Abs(b.s), b.clients, t, Abs(b.s), c);
  }

  lemma {:induction false} BenchInvStep(b: Bench, e: (nat, bool), b': Bench, items: seq<Data>)
    requires BenchInv(b, items) && BenchStep(b, e, b')
    ensures BenchInv(b', items)
  {
    ItemsAreItems(b.s, b.clients, items);
    CountedStep(b, e, b', |items|);
    ConservedStep(b, e, b', items);
    CountersStep(b, e, b', items);
  }

  lemma {:induction false} BenchInvRun(run: seq<Bench>, sched: seq<(nat, bool)>, items: seq<Data>, i: nat)
    requires IsBenchRun(run, sched, items) && i < |run|
    ensures BenchInv(run[i], items)
  {
    StartInv(run[0], items);
    BenchInvFrom(run, sched, items, i);
  }

  lemma {:induction false} BenchInvFrom(run: seq<Bench>, sched: seq<(nat, bool)>, items: seq<Data>, i: nat)
    requires R.Is(BenchStep, run, sched) && BenchInv(run[0], items) && i < |run|
    ensures BenchInv(run[i], items)
  {
    var inv := (b: Bench) => BenchInv(b, items);
    forall b, e, b' | inv(b) && BenchStep(b, e, b') ensures inv(b') { BenchInvStep(b, e, b', items); }
    R.Invariant(BenchStep, inv, run, sched, i);
  }

  // ---- With no more threads than items, no pop finds the stack empty ----

  // A thread in a pop has not seen, and will not return, a null pointer.
  predicate SawItem(th: Thread) {
    && (th.PopTop? ==> th.orig.head.ptr.Node?)
    && (th.PopDone? ==> th.data != NIL)
  }

  ghost predicate AllSawItem(s: State) { forall t: nat :: t < |s.threads| ==> SawItem(s.threads[t]) }

  // A thread that holds no item and owns no node leaves one thread less to do so.
  lemma {:induction false} BusyBound(clients: seq<Client>, threads: seq<Thread>, t: nat)
    requires t < |clients| == |threads| && !Bare(clients[t], threads[t]) && !Owns(threads[t])
    requires forall u: nat :: u < |clients| ==> !(Bare(clients[u], threads[u]) && Owns(threads[u]))
    ensures Bares(clients, threads) + Owners(threads) < |threads|
  {
    if t > 0 {
      BusyBound(clients[1..], threads[1..], t - 1);
    } else {
      BusyAtMost(clients[1..], threads[1..]);
    }
  }

  lemma {:induction false} BusyAtMost(clients: seq<Client>, threads: seq<Thread>)
    requires |clients| == |threads|
    requires forall u: nat :: u < |clients| ==> !(Bare(clients[u], threads[u]) && Owns(threads[u]))
    ensures Bares(clients, threads) + Owners(threads) <= |threads|
  {
    if clients != [] { BusyAtMost(clients[1..], threads[1..]); }
  }

  lemma {:induction false} StackNotEmpty(s: State, clients: seq<Client>, k: nat, t: nat)
    requires Inv(s) && Counted(s, clients, k) && |clients| <= k
    requires t < |clients| && !Bare(clients[t], s.threads[t]) && !Owns(s.threads[t])
    ensures s.stackChain != [] && s.stack.ptr.Node?
  {
    forall u: nat | u < |clients| ensures !(Bare(clients[u], s.threads[u]) && Owns(s.threads[u])) {
      assert AgreeAt(s, clients, u);
    }
    BusyBound(clients, s.threads, t);
  }

  lemma {:induction false} SawItemStep(b: Bench, e: (nat, bool), b': Bench, k: nat)
    requires Inv(b.s) && Counted(b.s, b.clients, k) && |b.clients| <= k && BenchStep(b, e, b')
    requires AllSawItem(b.s)
    ensures AllSawItem(b'.s) && |b'.clients| == |b.clients|
  {
    var t := e.0;
    assert AgreeAt(b.s, b.clients, t) && SawItem(b.s.threads[t]);
    if b.clients[t].InsidePop? && !Owns(b.s.threads[t]) && !b.s.threads[t].PopDone? {
      StackNotEmpty(b.s, b.clients, k, t);
    }
    if b'.s != b.s { SawItemAfter(b.s, t, StackAction(b, t, e.1)); }
  }

  lemma {:induction false} SawItemAfter(s: State, t: nat, a: Action)
    requires Inv(s) && Enabled(s, t, a) && AllSawItem(s)
    requires !Owns(s.threads[t]) && InPop(s.threads[t]) ==> s.stack.ptr.Node?
    requires Owns(s.threads[t]) && InPop(s.threads[t]) ==> CallOf(s, s.threads[t]) != Popped(NIL)
    ensures AllSawItem(Next(s, t, a))
  {
    StepCalls(s, t, a);
    SawItemOne(s, t, a);
  }

  lemma {:induction false} SawItemOne(s: State, t: nat, a: Action)
    requires Enabled(s, t, a) && SawItem(s.threads[t])
    requires !Owns(s.threads[t]) && InPop(s.threads[t]) ==> s.stack.ptr.Node?
    requires Owns(s.threads[t]) && InPop(s.threads[t]) ==> CallOf(s, s.threads[t]) != Popped(NIL)
    ensures t < |Next(s, t, a).threads| && SawItem(Next(s, t, a).threads[t])
  {
    if a.Run? && InPop(s.threads[t]) { SawItemPop(s, t, a.spurious); } else { SawItemElse(s, t, a); }
  }

  lemma {:induction false} SawItemPop(s: State, t: nat, spurious: bool)
    requires t < |s.threads| && InPop(s.threads[t]) && SawItem(s.threads[t])
    requires !Owns(s.threads[t]) ==> s.stack.ptr.Node?
    requires Owns(s.threads[t]) ==> CallOf(s, s.threads[t]) != Popped(NIL)
    ensures SawItem(RunStep(s, t, spurious).threads[t])
  {
  }

  lemma {:induction false} SawItemElse(s: State, t: nat, a: Action)
    requires Enabled(s, t, a) && (a.Run? ==> !InPop(s.threads[t]))
    ensures t < |Next(s, t, a).threads| && SawItem(Next(s, t, a).threads[t])
  {
  }

  ghost predicate SawItemInv(b: Bench, items: seq<Data>) {
    BenchInv(b, items) && |b.clients| <= |items| && AllSawItem(b.s)
  }

  lemma {:induction false} SawItemInvStep(b: Bench, e: (nat, bool), b': Bench, items: seq<Data>)
    requires SawItemInv(b, items) && BenchStep(b, e, b')
    ensures SawItemInv(b', items)
  {
    BenchInvStep(b, e, b', items);
    SawItemStep(b, e, b', |items|);
  }

  lemma {:induction false} SawItemRun(run: seq<Bench>, sched: seq<(nat, bool)>, items: seq<Data>, i: nat)
    requires IsBenchRun(run, sched, items) && i < |run| && |run[0].clients| <= |items|
    ensures AllSawItem(run[i].s)
  {
    StartInv(run[0], items);
    SawItemFrom(run, sched, items, i);
  }

  lemma {:induction false} SawItemFrom(run: seq<Bench>, sched: seq<(nat, bool)>, items: seq<Data>, i: nat)
    requires R.Is(BenchStep, run, sched) && SawItemInv(run[0], items) && i < |run|
    ensures SawItemInv(run[i], items)
  {
    var inv := (b: Bench) => SawItemInv(b, items);
    forall b, e, b' | inv(b) && BenchStep(b, e, b') ensures inv(b') { SawItemInvStep(b, e, b', items); }
    R.Invariant(BenchStep, inv, run, sched, i);
  }

  // ---- The results, for every run ----

  // The push whose result is ignored never fails, and after the start no fresh
  // node is taken.
  lemma {:induction false} PushNeverFails(run: seq<Bench>, sched: seq<(nat, bool)>, items: seq<Data>, i: nat, t: nat)
    requires IsBenchRun(run, sched, items) && i < |run| && t < |run[i].s.threads|
    ensures run[i].s.threads[t] != PushDone(false) && run[i].s.nodec == |items|
  {
    BenchInvRun(run, sched, items, i);
    assert AgreeAt(run[i].s, run[i].clients, t);
  }

  // A pop returns NULL only if there are more threads than items.
  lemma {:induction false} PopNeverFindsEmpty(run: seq<Bench>, sched: seq<(nat, bool)>, items: seq<Data>, i: nat,
                                                t: nat)
    requires IsBenchRun(run, sched, items) && i < |run| && t < |run[i].s.threads|
    requires |run[0].clients| <= |items|
    ensures run[i].s.threads[t] != PopDone(NIL)
  {
    SawItemRun(run, sched, items, i);
    assert SawItem(run[i].s.threads[t]);
  }

  // What a thread has in hand is an item, is not on the stack, and is in no other
  // thread's hands.
  lemma {:induction false} ItemsAreExclusive(run: seq<Bench>, sched: seq<(nat, bool)>, items: seq<Data>, i: nat,
                                               t: nat, d: Data)
    requires IsBenchRun(run, sched, items) && i < |run| && t < |run[i].clients| == |run[i].s.threads|
    requires d in Held(run[i].clients[t], Calls(run[i].s)[t])
    ensures d in items && d in run[i].cnt && d !in Items(run[i].s)
    ensures forall u: nat :: u < |run[i].clients| && u != t ==> d !in Held(run[i].clients[u], Calls(run[i].s)[u])
  {
    BenchInvRun(run, sched, items, i);
    HeldByOne(run[i].s, run[i].clients, items, t, d);
  }

  // No increment is lost and none is made twice: an item's counter has grown by one for
  // every push of it that has ended, and for one that is on its way.
  lemma {:induction false} CountersAreExact(run: seq<Bench>, sched: seq<(nat, bool)>, items: seq<Data>, i: nat,
                                              d: Data)
    requires IsBenchRun(run, sched, items) && i < |run| && d in items
    ensures d in run[0].cnt && d in run[i].cnt
    ensures run[i].cnt[d] == run[0].cnt[d] + Ended(run, sched, i, d) + Pending(run[i].clients, d)
  {
    if i == 0 {
      NothingPending(run[0].clients, d);
    } else {
      CountersAreExact(run, sched, items, i - 1, d);
      CountNext(run, sched, items, i - 1, d);
    }
  }

  lemma {:induction false} CountNext(run: seq<Bench>, sched: seq<(nat, bool)>, items: seq<Data>, i: nat, d: Data)
    requires IsBenchRun(run, sched, items) && i < |sched| && d in items
    ensures d in run[i].cnt && d in run[i + 1].cnt
    ensures run[i + 1].cnt[d] + Pending(run[i].clients, d) == run[i].cnt[d] + Pending(run[i + 1].clients, d) +
            if EndsPush(run[i], sched[i], run[i + 1], d) then 1 else 0
  {
    BenchInvRun(run, sched, items, i);
    CountStep(run[i], sched[i], run[i + 1], items, d);
  }

  lemma {:induction false} NothingPending(clients: seq<Client>, d: Data)
    requires forall t: nat :: t < |clients| ==> clients[t] == Between
    ensures Pending(clients, d) == 0
  {
    if clients != [] { NothingPending(clients[1..], d); }
  }

  // All together, with the increments of each item added up.
  function EndedAll(run: seq<Bench>, sched: seq<(nat, bool)>, i: nat, items: seq<Data>): nat
    requires i < |run| && i <= |sched|
  {
    if items == [] then 0 else Ended(run, sched, i, items[0]) + EndedAll(run, sched, i, items[1..])
  }

  function PendingAll(clients: seq<Client>, items: seq<Data>): nat {
    if items == [] then 0 else Pending(clients, items[0]) + PendingAll(clients, items[1..])
  }

  lemma {:induction false} SumIsExact(run: seq<Bench>, sched: seq<(nat, bool)>, items: seq<Data>, some: seq<Data>,
                                        i: nat)
    requires IsBenchRun(run, sched, items) && i < |run| && forall d :: d in some ==> d in items
    ensures forall d :: d in some ==> d in run[0].cnt && d in run[i].cnt
    ensures Sum(some, run[i].cnt) ==
            Sum(some, run[0].cnt) + EndedAll(run, sched, i, some) + PendingAll(run[i].clients, some)
  {
    if some != [] {
      assert forall d :: d in some ==> d == some[0] || d in some[1..];
      SumIsExact(run, sched, items, some[1..], i);
      CountersAreExact(run, sched, items, i, some[0]);
    }
  }

  // No thread follows a pointer that is not an item's, nor waits for another.
  lemma {:induction false} NoThreadIsStuck(run: seq<Bench>, sched: seq<(nat, bool)>, items: seq<Data>, i: nat, t: nat)
    requires IsBenchRun(run, sched, items) && i < |run| && t < |run[i].clients|
    ensures CanStep(run[i], t)
  {
    BenchInvRun(run, sched, items, i);
    var b := run[i];
    assert AgreeAt(b.s, b.clients, t);
    if b.clients[t].Took? {
      assert b.clients[t].item in Held(b.clients[t], Calls(b.s)[t]);
      HeldByOne(b.s, b.clients, items, t, b.clients[t].item);
    }
  }

  // At rest every item is back on the stack, once: what lfstack_destroy frees.
  lemma {:induction false} AtRestAllOnStack(run: seq<Bench>, sched: seq<(nat, bool)>, items: seq<Data>, i: nat)
    requires IsBenchRun(run, sched, items) && i < |run|
    requires forall t: nat :: t < |run[i].clients| ==> run[i].clients[t] == Between
    ensures multiset(Items(run[i].s)) == multiset(items)
  {
    BenchInvRun(run, sched, items, i);
    NothingHeld(run[i].clients, run[i].s.threads, Calls(run[i].s));
  }

  // The allocations that succeeded, in order.
  function Allocated(mem: seq<Data>): seq<Data> {
    if mem == [] then []
    else Allocated(mem[..|mem| - 1]) + (if mem[|mem| - 1] == NIL then [] else [mem[|mem| - 1]])
  }

  // No two allocations are the same memory.
  ghost predicate Distinct(mem: seq<Data>) {
    forall i, j :: 0 <= i < j < |mem| && mem[i] == mem[j] ==> mem[i] == NIL
  }

  lemma {:induction false} AllocatedItems(mem: seq<Data>)
    requires Distinct(mem)
    ensures |Allocated(mem)| <= |mem| && NoDup(Allocated(mem))
    ensures forall d :: d in Allocated(mem) <==> d in mem && d != NIL
  {
    if mem != [] {
      var front, last := mem[..|mem| - 1], mem[|mem| - 1];
      assert mem == front + [last];
      AllocatedItems(front);
      assert last != NIL ==> last !in front;
      if last != NIL { NoDupMore(Allocated(front), last); } else { assert Allocated(mem) == Allocated(front); }
    }
  }

  lemma {:induction false} NoDupMore(c: seq<Data>, d: Data)
    requires NoDup(c) && d !in c
    ensures NoDup(c + [d])
  {
    if c != [] {
      NoDupMore(c[1..], d);
      assert (c + [d])[1..] == c[1..] + [d];
    }
  }

  // Runs of the benchmark may start here, whatever the items' counters hold.
  ghost predicate ReadyFor(s: State, items: seq<Data>) {
    forall cnt: map<Data, int> :: cnt.Keys == (set d | d in items) ==>
                                    Start(Bench(s, seq(|s.threads|, _ => Between), cnt), items)
  }

  lemma {:induction false} ReadyToStart(s: State, items: seq<Data>)
    requires Inv(s) && (forall t: nat :: t < |s.threads| ==> s.threads[t] == Idle)
    requires s.cache.ptr.Null? && s.nodec == |items| <= s.nodemax && multiset(Items(s)) == multiset(items)
    requires NoDup(items) && NIL !in items
    ensures ReadyFor(s, items)
  {
    AtRestCounts(s);
  }

  // One round of the loop: push what was allocated, if anything was.
  method AddItem(stack: Stack, d: Data, ghost items: seq<Data>)
    requires Filling(stack, items) && |items| < stack.nodemax < WORD
    modifies stack, stack.next, stack.data, stack.threads
    ensures Filling(stack, items + if d == NIL then [] else [d])
  {
    if d != NIL {
      var ok := stack.Push(0, d, ([], []));
    }
  }

  ghost predicate Filling(stack: Stack, items: seq<Data>)
    reads stack, stack.next, stack.data, stack.threads
  {
    && stack.Valid() && stack.AtRest() && stack.nodecache.ptr.Null? && stack.threads.Length > 0
    && stack.nodec == |stack.Contents()| == |items| && multiset(stack.Contents()) == multiset(items)
  }

  method FillStack(stack: Stack, mem: seq<Data>)
    requires Filling(stack, []) && |mem| == stack.nodemax < WORD
    modifies stack, stack.next, stack.data, stack.threads
    ensures Filling(stack, Allocated(mem))
  {
    var i := 0;
    assert Allocated(mem[..0]) == [];
    while i < |mem|
      invariant 0 <= i <= |mem| && Filling(stack, Allocated(mem[..i]))
    {
      AddNext(stack, mem, i);
      i := i + 1;
    }
    assert mem[..i] == mem;
  }

  method AddNext(stack: Stack, mem: seq<Data>, i: nat)
    requires i < |mem| == stack.nodemax < WORD && Filling(stack, Allocated(mem[..i]))
    modifies stack, stack.next, stack.data, stack.threads
    ensures Filling(stack, Allocated(mem[..i + 1]))
  {
    AllocatedNext(mem, i);
    AllocatedFew(mem[..i]);
    AddItem(stack, mem[i], Allocated(mem[..i]));
  }

  lemma {:induction false} AllocatedFew(mem: seq<Data>)
    ensures |Allocated(mem)| <= |mem|
  {
    if mem != [] { AllocatedFew(mem[..|mem| - 1]); }
  }

  lemma {:induction false} AllocatedNext(mem: seq<Data>, i: nat)
    requires i < |mem|
    ensures Allocated(mem[..i + 1]) == Allocated(mem[..i]) + if mem[i] == NIL then [] else [mem[i]]
  {
    assert mem[..i + 1][..i] == mem[..i];
  }

  // subr_stack_lockfree_init: one push for every allocation that succeeds, on a
  // stack with a node for each.  What it leaves is where the runs above start.
  method InitBenchmark(stack: Stack, mem: seq<Data>)
    requires Filling(stack, []) && |mem| == stack.nodemax < WORD && Distinct(mem)
    modifies stack, stack.next, stack.data, stack.threads
    ensures stack.Valid() && ReadyFor(stack.Now(), Allocated(mem))
  {
    FillStack(stack, mem);
    AllocatedItems(mem);
    FilledReady(stack, Allocated(mem));
  }

  lemma {:induction false} FilledReady(stack: Stack, items: seq<Data>)
    requires Filling(stack, items) && |items| <= stack.nodemax && NoDup(items) && NIL !in items
    ensures stack.Valid() && ReadyFor(stack.Now(), items)
  {
    ReadyToStart(stack.Now(), items);
  }
}
