/** The pop+inc+push benchmark on a stack behind a lock: subr_stack_mutex and its
    twins with a write lock and a semaphore.

    The lock itself is taken as given: one thread at a time.  A pop returns NULL when
    the stack is empty, and the benchmark increments the counter in the node it
    popped without looking. */
module LockedStack {
  import L = LfStack
  import C = LfStackInvariant
  import R = Runs

  type Ptr = L.Ptr

  // Where a thread is; `node` is its local variable.
  datatype Thread =
    | Between
    | PopLock
    | PopReadHead
    | PopReadNext(node: nat)
    | PopUnlock(got: Ptr)
    | Got(got: Ptr)
    | Loaded(node: nat, val: int)
    | PushLock(node: nat)
    | PushWriteNext(node: nat)
    | PushWriteHead(node: nat)
    | PushUnlock

  // `chain` is history: the nodes linked from head.
  datatype State = State(locked: bool, head: Ptr, next: seq<Ptr>, cnt: seq<int>, threads: seq<Thread>,
                         chain: seq<nat>)

  function Goto(s: State, t: nat, pc: Thread): State
    requires t < |s.threads|
  {
    s.(threads := s.threads[t := pc])
  }

  // A thread that wants the lock waits while it is taken; the increment needs a node.
  ghost predicate Enabled(s: State, t: nat) {
    t < |s.threads|
    && match s.threads[t]
       case PopLock => !s.locked
       case PushLock(_) => !s.locked
       case Got(got) => got.Node? && got.index < |s.cnt|
       case Loaded(n, _) => n < |s.cnt|
       case PopReadNext(n) => n < |s.next|
       case PushWriteNext(n) => n < |s.next|
       case _ => true
  }

  function Step(s: State, t: nat): State
    requires t < |s.threads|
  {
    match s.threads[t]
    case Between => Goto(s, t, PopLock)
    case PopLock => Goto(s, t, PopReadHead).(locked := true)
    case PopReadHead => Goto(s, t, if s.head.Node? then PopReadNext(s.head.index) else PopUnlock(L.Null))
    case PopReadNext(n) =>
      Goto(s, t, PopUnlock(L.Node(n))).(
        head := if n < |s.next| then s.next[n] else L.Null, chain := if s.chain == [] then [] else s.chain[1..])
    case PopUnlock(got) => Goto(s, t, Got(got)).(locked := false)
    case Got(got) =>
      if got.Node? && got.index < |s.cnt| then Goto(s, t, Loaded(got.index, s.cnt[got.index])) else s
    case Loaded(n, v) =>
      if n < |s.cnt| then Goto(s, t, PushLock(n)).(cnt := s.cnt[n := v + 1]) else s
    case PushLock(n) => Goto(s, t, PushWriteNext(n)).(locked := true)
    case PushWriteNext(n) =>
      if n < |s.next| then Goto(s, t, PushWriteHead(n)).(next := s.next[n := s.head]) else s
    case PushWriteHead(n) => Goto(s, t, PushUnlock).(head := L.Node(n), chain := [n] + s.chain)
    case PushUnlock => Goto(s, t, Between).(locked := false)
  }

  // What the init loop leaves when k allocations succeed: those nodes are linked, with
  // counters at 0.  The others are on no list.
  ghost predicate Init(s: State, k: nat) {
    && !s.locked && |s.next| == |s.cnt| && |s.chain| == k
    && C.IsChain(s.next, s.head, s.chain)
    && (forall n :: 0 <= n < |s.cnt| ==> s.cnt[n] == 0)
    && (forall t: nat :: t < |s.threads| ==> s.threads[t] == Between)
  }

  ghost predicate StepOk(s: State, t: nat, s': State) { Enabled(s, t) && s' == Step(s, t) }

  ghost predicate IsRun(run: seq<State>, sched: seq<nat>) {
    |run| == |sched| + 1 && forall i :: 0 <= i < |sched| ==> StepOk(run[i], sched[i], run[i + 1])
  }

  // ---- The invariant ----

  predicate Inside(th: Thread) {
    th.PopReadHead? || th.PopReadNext? || th.PopUnlock? || th.PushWriteNext? || th.PushWriteHead? || th.PushUnlock?
  }

  // The node a thread has in hand, off the stack.
  function InHand(th: Thread): Ptr {
    match th
    case PopUnlock(got) => got
    case Got(got) => got
    case Loaded(n, _) => L.Node(n)
    case PushLock(n) => L.Node(n)
    case PushWriteNext(n) => L.Node(n)
    case PushWriteHead(n) => L.Node(n)
    case _ => L.Null
  }

  function Hands(threads: seq<Thread>): nat {
    if threads == [] then 0 else (if InHand(threads[0]).Node? then 1 else 0) + Hands(threads[1..])
  }

  lemma {:induction false} HandsUpdate(threads: seq<Thread>, t: nat, th: Thread)
    requires t < |threads|
    ensures Hands(threads[t := th]) + (if InHand(threads[t]).Node? then 1 else 0)
         == Hands(threads) + (if InHand(th).Node? then 1 else 0)
  {
    if t == 0 {
      assert threads[t := th][1..] == threads[1..];
    } else {
      assert threads[t := th][1..] == threads[1..][t - 1 := th];
      HandsUpdate(threads[1..], t - 1, th);
    }
  }

  // A thread that has nothing in hand leaves one hand less.
  lemma {:induction false} HandsBound(threads: seq<Thread>, t: nat)
    requires t < |threads| && InHand(threads[t]).Null?
    ensures Hands(threads) < |threads|
  {
    if t > 0 { HandsBound(threads[1..], t - 1); } else { HandsAtMost(threads[1..]); }
  }

  lemma {:induction false} HandsAtMost(threads: seq<Thread>)
    ensures Hands(threads) <= |threads|
  {
    if threads != [] { HandsAtMost(threads[1..]); }
  }

  lemma {:induction false} NoHands(threads: seq<Thread>)
    requires forall t: nat :: t < |threads| ==> InHand(threads[t]).Null?
    ensures Hands(threads) == 0
  {
    if threads != [] { NoHands(threads[1..]); }
  }

  ghost predicate Apart(a: Thread, b: Thread) {
    && !(Inside(a) && Inside(b))
    && (InHand(a).Node? ==> InHand(a) != InHand(b))
  }

  ghost predicate ThreadOk(s: State, th: Thread) {
    && (Inside(th) ==> s.locked)
    && (InHand(th).Node? ==> InHand(th).index < |s.next| && InHand(th).index !in s.chain)
    && (th.PopReadNext? ==> s.head == L.Node(th.node))
    && (th.Loaded? ==> th.node < |s.cnt| && th.val == s.cnt[th.node])
    && (th.PushWriteHead? ==> th.node < |s.next| && s.next[th.node] == s.head)
  }

  // k is the number of nodes allocated.
  ghost predicate Inv(s: State, k: nat) {
    && |s.cnt| == |s.next|
    && C.IsChain(s.next, s.head, s.chain)
    && |s.chain| + Hands(s.threads) == k
    && (forall t: nat :: t < |s.threads| ==> ThreadOk(s, s.threads[t]))
    && AllApart(s.threads)
  }

  ghost predicate AllApart(threads: seq<Thread>) {
    forall t: nat, u: nat :: t < |threads| && u < |threads| && t != u ==> Apart(threads[t], threads[u])
  }

  lemma {:induction false} InitInv(s: State, k: nat)
    requires Init(s, k)
    ensures Inv(s, k)
  {
    NoHands(s.threads);
  }

  // What a step does to the others, given what it does to the shared fields.
  lemma {:induction false} OthersKept(s: State, k: nat, t: nat)
    requires Inv(s, k) && Enabled(s, t)
    requires InHand(Step(s, t).threads[t]).Node? && !InHand(s.threads[t]).Node? ==>
      s.chain != [] && InHand(Step(s, t).threads[t]) == L.Node(s.chain[0])
    ensures var s' := Step(s, t);
      forall u: nat :: u < |s.threads| && u != t ==>
        ThreadOk(s', s.threads[u]) && Apart(s'.threads[t], s.threads[u]) && Apart(s.threads[u], s'.threads[t])
  {
    var s', th := Step(s, t), s.threads[t];
    assert ThreadOk(s, th);
    forall u: nat | u < |s.threads| && u != t
      ensures ThreadOk(s', s.threads[u]) && Apart(s'.threads[t], s.threads[u]) && Apart(s.threads[u], s'.threads[t])
    {
      assert ThreadOk(s, s.threads[u]) && Apart(th, s.threads[u]) && Apart(s.threads[u], th);
    }
  }

  lemma {:induction false} ChainStep(s: State, k: nat, t: nat)
    requires Inv(s, k) && Enabled(s, t)
    ensures var s' := Step(s, t); C.IsChain(s'.next, s'.head, s'.chain)
    ensures s.threads[t].PopReadNext? ==>
              s.chain != [] && s.threads[t].node == s.chain[0] && s.chain[0] !in s.chain[1..]
    ensures forall n :: n in Step(s, t).chain ==> n in s.chain || InHand(s.threads[t]) == L.Node(n)
  {
    var th := s.threads[t];
    assert ThreadOk(s, th);
    if th.PopReadNext? {
      C.TailChain(s.next, s.head, s.chain);
    } else if th.PushWriteHead? {
      C.ConsChain(s.next, s.head, s.chain, th.node);
    } else if th.PushWriteNext? {
      C.ChainKept(s.next, Step(s, t).next, s.head, s.chain, th.node);
    }
  }

  lemma {:induction false} ThreadsStep(s: State, k: nat, t: nat)
    requires Inv(s, k) && Enabled(s, t)
    ensures var s' := Step(s, t);
            AllApart(s'.threads) && forall u: nat :: u < |s'.threads| && u != t ==> ThreadOk(s', s'.threads[u])
  {
    var s' := Step(s, t);
    ChainStep(s, k, t);
    OthersKept(s, k, t);
    forall u: nat, v: nat | u < |s.threads| && v < |s.threads| && u != v ensures Apart(s'.threads[u], s'.threads[v]) {
      if u != t && v != t { assert Apart(s.threads[u], s.threads[v]); }
    }
  }

  lemma {:induction false} OwnStep(s: State, k: nat, t: nat)
    requires Inv(s, k) && Enabled(s, t)
    ensures ThreadOk(Step(s, t), Step(s, t).threads[t])
  {
    assert ThreadOk(s, s.threads[t]);
    if s.threads[t].PopReadNext? { OwnPop(s, k, t); } else { OwnRest(s, k, t); }
  }

  lemma {:induction false} OwnPop(s: State, k: nat, t: nat)
    requires Inv(s, k) && Enabled(s, t) && s.threads[t].PopReadNext?
    ensures ThreadOk(Step(s, t), Step(s, t).threads[t])
  {
    assert ThreadOk(s, s.threads[t]);
    ChainStep(s, k, t);
  }

  lemma {:induction false} OwnRest(s: State, k: nat, t: nat)
    requires Inv(s, k) && Enabled(s, t) && !s.threads[t].PopReadNext?
    ensures ThreadOk(Step(s, t), Step(s, t).threads[t])
  {
    assert ThreadOk(s, s.threads[t]);
  }

  lemma {:induction false} HandsStep(s: State, k: nat, t: nat)
    requires Inv(s, k) && Enabled(s, t)
    ensures |Step(s, t).chain| + Hands(Step(s, t).threads) == k
  {
    var th := s.threads[t];
    assert ThreadOk(s, th);
    HandsUpdate(s.threads, t, Step(s, t).threads[t]);
    if th.PopReadNext? { ChainStep(s, k, t); }
  }

  lemma {:induction false} InvStep(s: State, k: nat, t: nat)
    requires Inv(s, k) && Enabled(s, t)
    ensures Inv(Step(s, t), k)
  {
    assert ThreadOk(s, s.threads[t]);
    ChainStep(s, k, t);
    ThreadsStep(s, k, t);
    OwnStep(s, k, t);
    HandsStep(s, k, t);
  }

  // Only nodes that were linked at the start are ever linked or in hand.
  ghost predicate Known(s: State, nodes: seq<nat>) {
    && (forall n :: n in s.chain ==> n in nodes)
    && forall t: nat :: t < |s.threads| && InHand(s.threads[t]).Node? ==> InHand(s.threads[t]).index in nodes
  }

  lemma {:induction false} KnownStep(s: State, k: nat, t: nat, nodes: seq<nat>)
    requires Inv(s, k) && Enabled(s, t) && Known(s, nodes)
    ensures Known(Step(s, t), nodes)
  {
    var s' := Step(s, t);
    ChainStep(s, k, t);
    HandKnown(s, k, t, nodes);
    forall u: nat | u < |s'.threads| && InHand(s'.threads[u]).Node? ensures InHand(s'.threads[u]).index in nodes {
      if u != t { assert s'.threads[u] == s.threads[u]; }
    }
  }

  lemma {:induction false} HandKnown(s: State, k: nat, t: nat, nodes: seq<nat>)
    requires Inv(s, k) && Enabled(s, t) && Known(s, nodes)
    ensures InHand(Step(s, t).threads[t]).Node? ==> InHand(Step(s, t).threads[t]).index in nodes
  {
    assert ThreadOk(s, s.threads[t]);
    if s.threads[t].PopReadNext? { ChainStep(s, k, t); }
  }

  lemma {:induction false} InvRun(run: seq<State>, sched: seq<nat>, k: nat, i: nat)
    requires IsRun(run, sched) && Init(run[0], k) && i < |run|
    ensures Inv(run[i], k) && Known(run[i], run[0].chain) && |run[i].threads| == |run[0].threads|
  {
    if i == 0 {
      InitInv(run[0], k);
    } else {
      InvRun(run, sched, k, i - 1);
      assert StepOk(run[i - 1], sched[i - 1], run[i]);
      InvStep(run[i - 1], k, sched[i - 1]);
      KnownStep(run[i - 1], k, sched[i - 1], run[0].chain);
    }
  }

  // ---- The results, for every run ----

  // With no more threads than nodes a pop never comes back with NULL, so the
  // increment that does not look is safe.
  ghost predicate NoNull(s: State) { forall t: nat :: t < |s.threads| ==> GotNode(s.threads[t]) }

  predicate GotNode(th: Thread) { (th.PopUnlock? || th.Got?) ==> th.got.Node? }

  lemma {:induction false} PopNeverNull(run: seq<State>, sched: seq<nat>, k: nat, i: nat)
    requires IsRun(run, sched) && Init(run[0], k) && i < |run| && |run[0].threads| <= k
    ensures NoNull(run[i])
  {
    if i > 0 {
      PopNeverNull(run, sched, k, i - 1);
      InvRun(run, sched, k, i - 1);
      assert StepOk(run[i - 1], sched[i - 1], run[i]);
      StaysNonNull(run[i - 1], k, sched[i - 1]);
    }
  }

  lemma {:induction false} StaysNonNull(s: State, k: nat, t: nat)
    requires Inv(s, k) && Enabled(s, t) && NoNull(s) && |s.threads| <= k
    ensures NoNull(Step(s, t))
  {
    assert GotNode(s.threads[t]);
    if s.threads[t].PopReadHead? { HandsBound(s.threads, t); }
    assert GotNode(Step(s, t).threads[t]);
  }

  // A node is on the stack or in one thread's hands, never both or neither, and no
  // other node is.
  lemma {:induction false} NodeInOnePlace(run: seq<State>, sched: seq<nat>, k: nat, i: nat, t: nat, u: nat)
    requires IsRun(run, sched) && Init(run[0], k) && i < |run|
    requires t < |run[i].threads| && u < |run[i].threads| && t != u && InHand(run[i].threads[t]).Node?
    ensures InHand(run[i].threads[t]).index in run[0].chain && InHand(run[i].threads[t]).index !in run[i].chain
    ensures InHand(run[i].threads[u]) != InHand(run[i].threads[t])
    ensures |run[i].chain| + Hands(run[i].threads) == k
  {
    InvRun(run, sched, k, i);
    assert ThreadOk(run[i], run[i].threads[t]) && Apart(run[i].threads[t], run[i].threads[u]);
  }

  // The lock is taken exactly while a thread is inside.
  ghost predicate LockOk(s: State) { s.locked ==> exists t: nat :: t < |s.threads| && Inside(s.threads[t]) }

  lemma {:induction false} LockStep(s: State, k: nat, t: nat)
    requires Inv(s, k) && Enabled(s, t) && LockOk(s)
    ensures LockOk(Step(s, t))
  {
    var s' := Step(s, t);
    if s'.locked {
      if Inside(s'.threads[t]) {
        assert t < |s'.threads|;
      } else {
        var u: nat :| u < |s.threads| && Inside(s.threads[u]);
        assert s'.threads[u] == s.threads[u];
      }
    }
  }

  lemma {:induction false} LockHeldIff(run: seq<State>, sched: seq<nat>, k: nat, i: nat)
    requires IsRun(run, sched) && Init(run[0], k) && i < |run|
    ensures run[i].locked <==> exists t: nat :: t < |run[i].threads| && Inside(run[i].threads[t])
  {
    LockRun(run, sched, k, i);
    InvRun(run, sched, k, i);
    forall t: nat | t < |run[i].threads| && Inside(run[i].threads[t]) ensures run[i].locked {
      assert ThreadOk(run[i], run[i].threads[t]);
    }
  }

  lemma {:induction false} LockRun(run: seq<State>, sched: seq<nat>, k: nat, i: nat)
    requires IsRun(run, sched) && Init(run[0], k) && i < |run|
    ensures LockOk(run[i])
  {
    if i > 0 {
      LockRun(run, sched, k, i - 1);
      InvRun(run, sched, k, i - 1);
      assert StepOk(run[i - 1], sched[i - 1], run[i]);
      LockStep(run[i - 1], k, sched[i - 1]);
    }
  }

  // With no more threads than nodes someone can always go on.
  lemma {:induction false} SomeoneGoesOn(run: seq<State>, sched: seq<nat>, k: nat, i: nat) returns (t: nat)
    requires IsRun(run, sched) && Init(run[0], k) && i < |run| && 0 < |run[0].threads| <= k
    ensures Enabled(run[i], t)
  {
    var s := run[i];
    LockHeldIff(run, sched, k, i);
    InvRun(run, sched, k, i);
    if s.locked {
      t :| t < |s.threads| && Inside(s.threads[t]);
      InsideGoesOn(s, k, t);
    } else {
      t := 0;
      PopNeverNull(run, sched, k, i);
      assert GotNode(s.threads[t]) && ThreadOk(s, s.threads[t]);
    }
  }

  lemma {:induction false} InsideGoesOn(s: State, k: nat, t: nat)
    requires Inv(s, k) && t < |s.threads| && Inside(s.threads[t])
    ensures Enabled(s, t)
  {
    assert ThreadOk(s, s.threads[t]);
    if s.threads[t].PopReadNext? {
      assert s.head.Node?;
      C.TailChain(s.next, s.head, s.chain);
    }
  }

  // A node on its way back: incremented, and not yet linked.
  predicate Returns(th: Thread, n: nat) { th == PushLock(n) || th == PushWriteNext(n) || th == PushWriteHead(n) }

  function Pending(threads: seq<Thread>, n: nat): nat {
    if threads == [] then 0 else (if Returns(threads[0], n) then 1 else 0) + Pending(threads[1..], n)
  }

  lemma {:induction false} PendingUpdate(threads: seq<Thread>, t: nat, th: Thread, n: nat)
    requires t < |threads|
    ensures Pending(threads[t := th], n) + (if Returns(threads[t], n) then 1 else 0)
         == Pending(threads, n) + (if Returns(th, n) then 1 else 0)
  {
    if t == 0 {
      assert threads[t := th][1..] == threads[1..];
    } else {
      assert threads[t := th][1..] == threads[1..][t - 1 := th];
      PendingUpdate(threads[1..], t - 1, th, n);
    }
  }

  lemma {:induction false} NothingPending(threads: seq<Thread>, n: nat)
    requires forall t: nat :: t < |threads| ==> threads[t] == Between
    ensures Pending(threads, n) == 0
  {
    if threads != [] { NothingPending(threads[1..], n); }
  }

  // The step links node n again.
  predicate Links(s: State, t: nat, n: nat) { t < |s.threads| && s.threads[t] == PushWriteHead(n) }

  // How often the first i steps have linked node n.
  function Linked(run: seq<State>, sched: seq<nat>, i: nat, n: nat): nat
    requires i < |run| && i <= |sched|
  {
    if i == 0 then 0 else Linked(run, sched, i - 1, n) + if Links(run[i - 1], sched[i - 1], n) then 1 else 0
  }

  lemma {:induction false} CountStep(s: State, k: nat, t: nat, n: nat)
    requires Inv(s, k) && Enabled(s, t) && n < |s.cnt|
    ensures |Step(s, t).cnt| == |s.cnt|
    ensures Step(s, t).cnt[n] + Pending(s.threads, n) ==
            s.cnt[n] + Pending(Step(s, t).threads, n) + if Links(s, t, n) then 1 else 0
  {
    assert ThreadOk(s, s.threads[t]);
    StepCounts(s, t, n);
    PendingUpdate(s.threads, t, Step(s, t).threads[t], n);
  }

  lemma {:induction false} StepCounts(s: State, t: nat, n: nat)
    requires Enabled(s, t) && n < |s.cnt| && (s.threads[t].Loaded? ==> s.threads[t].val == s.cnt[s.threads[t].node])
    ensures var s' := Step(s, t);
            && |s'.cnt| == |s.cnt| && |s'.threads| == |s.threads| && s'.threads == s.threads[t := s'.threads[t]]
            && s'.cnt[n] + (if Returns(s.threads[t], n) then 1 else 0) ==
               s.cnt[n] + (if Returns(s'.threads[t], n) then 1 else 0) + if Links(s, t, n) then 1 else 0
  {
  }

  // No increment is lost and none is made twice: a node's counter is the number of times
  // it was linked again, and one more while it is on its way.
  lemma {:induction false} CountersAreExact(run: seq<State>, sched: seq<nat>, k: nat, i: nat, n: nat)
    requires IsRun(run, sched) && Init(run[0], k) && i < |run| && n < |run[0].cnt|
    ensures |run[i].cnt| == |run[0].cnt|
    ensures run[i].cnt[n] == Linked(run, sched, i, n) + Pending(run[i].threads, n)
  {
    if i == 0 {
      NothingPending(run[0].threads, n);
    } else {
      CountersAreExact(run, sched, k, i - 1, n);
      InvRun(run, sched, k, i - 1);
      assert StepOk(run[i - 1], sched[i - 1], run[i]);
      CountStep(run[i - 1], k, sched[i - 1], n);
    }
  }

  // ---- With more threads than nodes, NULL is incremented ----

  function Chain(k: nat): seq<nat> { if k == 0 then [] else [k - 1] + Chain(k - 1) }

  lemma {:induction false} ChainLength(k: nat)
    ensures |Chain(k)| == k
  {
    if k > 0 { ChainLength(k - 1); }
  }

  // k nodes linked by the init loop, n threads, and the first j of those have each
  // popped one and are about to increment it.
  function Popped(n: nat, k: nat, j: nat): State
    requires j <= k && j <= n
  {
    State(false, if j == k then L.Null else L.Node(k - j - 1),
          seq(k, i requires 0 <= i < k => if i == 0 then L.Null else L.Node(i - 1)), seq(k, _ => 0),
          seq(n, i requires 0 <= i < n => if i < j then Got(L.Node(k - i - 1)) else Between), Chain(k - j))
  }

  lemma {:induction false} ChainAt(k: nat, i: nat)
    requires i < k
    ensures |Chain(k)| == k && Chain(k)[i] == k - i - 1
  {
    ChainLength(k);
    if i > 0 { ChainAt(k - 1, i - 1); }
  }

  lemma {:induction false} StartsPopped(n: nat, k: nat)
    ensures Init(Popped(n, k, 0), k)
  {
    var s := Popped(n, k, 0);
    ChainLength(k);
    forall i | 0 <= i < k ensures s.chain[i] == k - i - 1 { ChainAt(k, i); }
    ChainFalls(k);
    assert C.IsChain(s.next, s.head, s.chain);
  }

  lemma {:induction false} ChainFalls(k: nat)
    ensures C.NoDup(Chain(k)) && forall n :: n in Chain(k) ==> n < k
  {
    if k > 0 { ChainFalls(k - 1); }
  }

  lemma {:induction false} Then(s: State, sched: seq<nat>, m: State, t: nat)
    requires R.Leads(StepOk, s, sched, m) && Enabled(m, t)
    ensures R.Leads(StepOk, s, sched + [t], Step(m, t))
  {
    R.Then(StepOk, s, sched, m, t, Step(m, t));
  }

  // Thread j asks for the lock, gets it and reads the head.
  lemma {:induction false} Asks(s: State, sched: seq<nat>, n: nat, k: nat, j: nat)
    requires j <= k && j < n && R.Leads(StepOk, s, sched, Popped(n, k, j))
    ensures R.Leads(StepOk, s, sched + [j, j, j],
      Goto(Popped(n, k, j), j, if j == k then PopUnlock(L.Null) else PopReadNext(k - j - 1)).(locked := true))
  {
    var m := Popped(n, k, j);
    Then(s, sched, m, j);
    Then(s, sched + [j], Goto(m, j, PopLock), j);
    var m' := Goto(m, j, PopReadHead).(locked := true);
    assert Step(Goto(m, j, PopLock), j) == m';
    Then(s, sched + [j] + [j], m', j);
    assert sched + [j] + [j] + [j] == sched + [j, j, j];
    assert Step(m', j) == Goto(m, j, if j == k then PopUnlock(L.Null) else PopReadNext(k - j - 1)).(locked := true);
  }

  lemma {:induction false} PopsOne(s: State, sched: seq<nat>, n: nat, k: nat, j: nat)
    requires j < k && j < n && R.Leads(StepOk, s, sched, Popped(n, k, j))
    ensures R.Leads(StepOk, s, sched + [j, j, j] + [j] + [j], Popped(n, k, j + 1))
  {
    Asks(s, sched, n, k, j);
    var m := Goto(Popped(n, k, j), j, PopReadNext(k - j - 1)).(locked := true);
    Then(s, sched + [j, j, j], m, j);
    Then(s, sched + [j, j, j] + [j], Step(m, j), j);
    assert Chain(k - j)[1..] == Chain(k - j - 1);
    assert Step(Step(m, j), j).threads == Popped(n, k, j + 1).threads;
  }

  lemma {:induction false} PopsMany(n: nat, k: nat, j: nat) returns (sched: seq<nat>)
    requires j <= k && j <= n
    ensures R.Leads(StepOk, Popped(n, k, 0), sched, Popped(n, k, j))
  {
    if j == 0 {
      sched := [];
      R.Stay<State, nat>(StepOk, Popped(n, k, 0));
    } else {
      var first := PopsMany(n, k, j - 1);
      PopsOne(Popped(n, k, 0), first, n, k, j - 1);
      sched := first + [j - 1, j - 1, j - 1] + [j - 1] + [j - 1];
    }
  }

  ghost predicate NeverNull(n: nat, k: nat) {
    forall run: seq<State>, sched, i: nat ::
      IsRun(run, sched) && Init(run[0], k) && |run[0].threads| == n && i < |run| ==> NoNull(run[i])
  }

  // n threads on k nodes never increment through NULL exactly when n <= k.
  lemma {:induction false} SafeIffEnoughNodes(n: nat, k: nat)
    ensures NeverNull(n, k) <==> n <= k
  {
    if n <= k {
      forall run: seq<State>, sched, i: nat |
        IsRun(run, sched) && Init(run[0], k) && |run[0].threads| == n && i < |run| ensures NoNull(run[i])
      {
        PopNeverNull(run, sched, k, i);
      }
    } else {
      var sched := PopsMany(n, k, k);
      Asks(Popped(n, k, 0), sched, n, k, k);
      var end := Goto(Popped(n, k, k), k, PopUnlock(L.Null)).(locked := true);
      var run: seq<State> :|
        R.Is(StepOk, run, sched + [k, k, k]) && run[0] == Popped(n, k, 0) && run[|sched + [k, k, k]|] == end;
      assert IsRun(run, sched + [k, k, k]);
      StartsPopped(n, k);
      assert !GotNode(end.threads[k]);
      assert !NoNull(run[|sched + [k, k, k]|]);
    }
  }

  // ---- The list in memory, while its lock is held ----

  // The allocations that succeed, last one first.
  function Pushed(alloc: seq<bool>): seq<nat> {
    if alloc == [] then []
    else (if alloc[|alloc| - 1] then [|alloc| - 1] else []) + Pushed(alloc[..|alloc| - 1])
  }

  lemma {:induction false} PushedBelow(alloc: seq<bool>)
    ensures forall n: nat :: n in Pushed(alloc) <==> n < |alloc| && alloc[n]
  {
    if alloc != [] { PushedBelow(alloc[..|alloc| - 1]); }
  }

  lemma {:induction false} PushedNext(alloc: seq<bool>, i: nat)
    requires i < |alloc|
    ensures Pushed(alloc[..i + 1]) == (if alloc[i] then [i] else []) + Pushed(alloc[..i]) && i !in Pushed(alloc[..i])
  {
    assert alloc[..i + 1][..i] == alloc[..i];
    PushedBelow(alloc[..i]);
  }

  function First(p: Ptr): seq<nat> { if p.Node? then [p.index] else [] }

  // n threads about to run the benchmark on a list.
  function StartWith(next: seq<Ptr>, head: Ptr, chain: seq<nat>, n: nat): State {
    State(false, head, next, seq(|next|, _ => 0), seq(n, _ => Between), chain)
  }

  lemma {:induction false} InitWith(next: seq<Ptr>, head: Ptr, chain: seq<nat>)
    requires C.IsChain(next, head, chain)
    ensures forall n: nat :: Init(StartWith(next, head, chain, n), |chain|)
  {
  }

  class MutexStack {
    var head: Ptr
    const next: array<Ptr>
    ghost var chain: seq<nat>

    ghost predicate Valid()
      reads this, next
    {
      C.IsChain(next[..], head, chain)
    }

    // Where n threads start to run the benchmark.
    ghost function Start(n: nat): State
      reads this, next
    {
      StartWith(next[..], head, chain, n)
    }

    // The init loop: node i is linked on top if its allocation succeeded.  What it
    // leaves is where the runs above start.
    constructor (alloc: seq<bool>)
      ensures Valid() && chain == Pushed(alloc) && next.Length == |alloc| && fresh(next)
      ensures forall n: nat :: Init(Start(n), |Pushed(alloc)|)
    {
      head := L.Null;
      next := new Ptr[|alloc|];
      chain := [];
      new;
      var i := 0;
      while i < |alloc|
        invariant 0 <= i <= |alloc| && Valid() && chain == Pushed(alloc[..i])
      {
        LinkNext(alloc, i);
        i := i + 1;
      }
      assert alloc[..i] == alloc;
      InitWith(next[..], head, chain);
    }

    method LinkNext(alloc: seq<bool>, i: nat)
      requires i < |alloc| == next.Length && Valid() && chain == Pushed(alloc[..i])
      modifies this, next
      ensures Valid() && chain == Pushed(alloc[..i + 1])
    {
      PushedNext(alloc, i);
      if alloc[i] { Push(i); }
    }

    method Push(n: nat)
      requires Valid() && n < next.Length && n !in chain
      modifies this, next
      ensures Valid() && chain == [n] + old(chain)
    {
      next[n] := head;
      C.ChainKept(old(next[..]), next[..], head, chain, n);
      C.ConsChain(next[..], head, chain, n);
      head := L.Node(n);
      chain := [n] + chain;
    }

    method Pop() returns (got: Ptr)
      requires Valid()
      modifies this
      ensures Valid()
      ensures old(chain) == [] ==> got == L.Null && chain == []
      ensures old(chain) != [] ==> got == L.Node(old(chain)[0]) && chain == old(chain)[1..] && old(chain)[0] !in chain
      ensures old(chain) == First(got) + chain
    {
      got := head;
      if got.Node? {
        C.TailChain(next[..], head, chain);
        head := next[got.index];
        chain := chain[1..];
      }
    }

    // One turn of that loop.
    method DrainOne(before: seq<nat>, node: Ptr) returns (freed: seq<nat>, next': Ptr)
      requires Valid() && node.Node?
      modifies this
      ensures Valid() && (next'.Null? ==> chain == [])
      ensures freed + (First(next') + chain) == before + (First(node) + old(chain))
      ensures |chain| < |old(chain)| || (chain == old(chain) == [] && next'.Null?)
    {
      freed := before + [node.index];
      Regroup(before, node.index, chain);
      next' := Pop();
    }

    static lemma {:induction false} Regroup(before: seq<nat>, n: nat, rest: seq<nat>)
      ensures (before + [n]) + rest == before + ([n] + rest)
    {
    }

    // The loop of subr_fini: it ends, with every node on the stack freed once.
    method Drain() returns (freed: seq<nat>)
      requires Valid()
      modifies this
      ensures freed == old(chain) && C.NoDup(freed) && chain == [] && head.Null?
    {
      assert C.NoDup(chain);
      freed := [];
      var node := Pop();
      while node.Node?
        invariant Valid() && (node.Null? ==> chain == [])
        invariant old(chain) == freed + (First(node) + chain)
        decreases |chain|, node.Node?
      {
        ghost var rest := chain;
        freed, node := DrainOne(freed, node);
        assert |chain| <= |rest|;
      }
    }
  }
}
