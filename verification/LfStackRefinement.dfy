/** Every interleaving of the lock-free stack is one of the atomic stack. */
module LfStackRefinement {
  import opened LfStack
  import opened LfStackInvariant
  import opened AtomicStack

  function Items(s: State): seq<Data> {
    seq(|s.stackChain|, i requires 0 <= i < |s.stackChain| => ReadData(s, s.stackChain[i]))
  }

  // A pop that has read a null head has already found the stack empty; one that
  // owns a node has already taken it, though it reads the data later.
  function CallOf(s: State, th: Thread): Call {
    match th
    case Idle => Free
    case PushLoadCache(d) => Pushing(d)
    case PushTop(d, _) => Pushing(d)
    case PushCacheCas(d, _, _) => Pushing(d)
    case PushWriteData(d, _) => Pushing(d)
    case PushLoadStack(n) => Pushing(ReadData(s, n))
    case PushWriteNext(n, _) => Pushing(ReadData(s, n))
    case PushStackCas(n, _) => Pushing(ReadData(s, n))
    case PushDone(ok) => Pushed(ok)
    case PopLoadStack => Popping
    case PopTop(orig) => if orig.head.ptr.Null? then Popped(NIL) else Popping
    case PopStackCas(_, _) => Popping
    case PopReadData(n) => Popped(ReadData(s, n))
    case PopLoadCache(_, d) => Popped(d)
    case PopWriteNext(_, d, _) => Popped(d)
    case PopCacheCas(_, d, _) => Popped(d)
    case PopDone(d) => Popped(d)
  }

  function Calls(s: State): seq<Call> {
    seq(|s.threads|, t requires 0 <= t < |s.threads| => CallOf(s, s.threads[t]))
  }

  function Abs(s: State): Spec { Spec(Items(s), Calls(s)) }

  function EventOf(s: State, t: nat, a: Action): Event
    requires t < |s.threads|
  {
    match a
    case CallPush(d) => StartPush(d)
    case CallPop => StartPop
    case Run(_) => Inside
    case Return =>
      match s.threads[t]
      case PushDone(ok) => EndPush(ok)
      case PopDone(d) => EndPop(d)
      case _ => Inside
  }

  // Data written to a node that thread t owns shows to nobody else.
  lemma {:induction false} CallsKept(s: State, s': State, t: nat)
    requires Inv(s) && t < |s.threads| == |s'.threads|
    requires s'.threads == s.threads[t := s'.threads[t]]
    requires |s'.data| == |s.data|
    requires forall n: nat :: n < |s.data| && !(Owns(s.threads[t]) && s.threads[t].node == n) ==>
                                s'.data[n] == s.data[n]
    ensures Calls(s') == Calls(s)[t := CallOf(s', s'.threads[t])]
    ensures s'.stackChain == s.stackChain ==> Items(s') == Items(s)
  {
    assert OwnerOk(s, s.threads[t]);
    forall u: nat | u < |s.threads| && u != t ensures CallOf(s', s'.threads[u]) == CallOf(s, s.threads[u]) {
      if u < t { assert Apart(s.threads[u], s.threads[t]); } else { assert Apart(s.threads[t], s.threads[u]); }
      assert OwnerOk(s, s.threads[u]);
    }
  }

  // A successful exchange on the stack is where the call takes effect.
  lemma {:induction false} PushTakesEffect(s: State, t: nat, n: nat, orig: Snap)
    requires Inv(s) && t < |s.threads| && s.threads[t] == PushStackCas(n, orig)
    ensures TakesEffect(Abs(s), t, Abs(GiveStack(s, t, n, orig)))
    ensures Items(GiveStack(s, t, n, orig)) == [ReadData(s, n)] + Items(s)
  {
    var s' := GiveStack(s, t, n, orig);
    CallsKept(s, s', t);
    PushItems(s, s', n);
  }

  lemma {:induction false} PushItems(s: State, s': State, n: nat)
    requires s'.data == s.data && s'.stackChain == [n] + s.stackChain
    ensures Items(s') == [ReadData(s, n)] + Items(s)
  {
    forall i | 0 <= i < |s'.stackChain| ensures Items(s')[i] == ([ReadData(s, n)] + Items(s))[i] {
      if i > 0 { assert s'.stackChain[i] == s.stackChain[i - 1]; }
    }
  }

  lemma {:induction false} PopTakesEffect(s: State, t: nat, orig: Snap, next: Ptr)
    requires Inv(s) && t < |s.threads| && s.threads[t] == PopStackCas(orig, next)
    requires Timely(s, t) && s.stack == orig.head
    ensures s.stackChain != [] && orig.head.ptr.Node?
    ensures TakesEffect(Abs(s), t, Abs(TakeStack(s, t, orig, next)))
    ensures Items(s) == [ReadData(s, orig.head.ptr.index)] + Items(TakeStack(s, t, orig, next))
  {
    TakeStackFresh(s, t, orig, next);
    var s' := TakeStack(s, t, orig, next);
    CallsKept(s, s', t);
    assert s.stackChain == [orig.head.ptr.index] + s'.stackChain;
    PushItems(s', s, orig.head.ptr.index);
  }

  // Any other step of a push leaves the items alone; the call takes effect only
  // where it gives up.
  lemma {:induction false} PushStepRefines(s: State, t: nat, spurious: bool)
    requires Inv(s) && Enabled(s, t, Run(spurious)) && Timely(s, t) && !InPop(s.threads[t])
    ensures SpecStep(Abs(s), t, Inside, Abs(RunStep(s, t, spurious)))
  {
    if Owns(s.threads[t]) { PushOwnsRefines(s, t, spurious); } else { PushAllocRefines(s, t, spurious); }
  }

  lemma {:induction false} PushAllocRefines(s: State, t: nat, spurious: bool)
    requires Inv(s) && Enabled(s, t, Run(spurious)) && Timely(s, t) && !InPop(s.threads[t]) && !Owns(s.threads[t])
    ensures SpecStep(Abs(s), t, Inside, Abs(RunStep(s, t, spurious)))
  {
    CallsKept(s, RunStep(s, t, spurious), t);
  }

  lemma {:induction false} PushOwnsRefines(s: State, t: nat, spurious: bool)
    requires Inv(s) && Enabled(s, t, Run(spurious)) && Timely(s, t) && !InPop(s.threads[t]) && Owns(s.threads[t])
    ensures SpecStep(Abs(s), t, Inside, Abs(RunStep(s, t, spurious)))
  {
    var s', th := RunStep(s, t, spurious), s.threads[t];
    assert OwnerOk(s, th);
    if th.PushStackCas? && s.stack == th.orig.head && !spurious {
      PushTakesEffect(s, t, th.node, th.orig);
    } else {
      CallsKept(s, s', t);
      assert CallOf(s', s'.threads[t]) == CallOf(s, th);
      SameCall(s, s', t);
    }
  }

  lemma {:induction false} PopStepRefines(s: State, t: nat, spurious: bool)
    requires Inv(s) && Enabled(s, t, Run(spurious)) && Timely(s, t) && InPop(s.threads[t])
    ensures SpecStep(Abs(s), t, Inside, Abs(RunStep(s, t, spurious)))
  {
    if Owns(s.threads[t]) { PopFreesRefines(s, t, spurious); } else { PopTakesRefines(s, t, spurious); }
  }

  lemma {:induction false} PopTakesRefines(s: State, t: nat, spurious: bool)
    requires Inv(s) && Enabled(s, t, Run(spurious)) && Timely(s, t) && InPop(s.threads[t]) && !Owns(s.threads[t])
    ensures SpecStep(Abs(s), t, Inside, Abs(RunStep(s, t, spurious)))
  {
    var th := s.threads[t];
    assert ThreadOk(s, th);
    if th.PopStackCas? && s.stack == th.orig.head && !spurious {
      PopTakesEffect(s, t, th.orig, th.next);
    } else {
      PopLooksRefines(s, t, spurious);
    }
  }

  // A pop that reads a null head finds the stack empty there and then.
  lemma {:induction false} PopLooksRefines(s: State, t: nat, spurious: bool)
    requires Inv(s) && Enabled(s, t, Run(spurious)) && InPop(s.threads[t]) && !Owns(s.threads[t])
    requires var th := s.threads[t]; !(th.PopStackCas? && s.stack == th.orig.head && !spurious)
    ensures SpecStep(Abs(s), t, Inside, Abs(RunStep(s, t, spurious)))
  {
    if s.threads[t].PopTop? { PopTopRefines(s, t, spurious); } else { PopSnapRefines(s, t); }
  }

  lemma {:induction false} PopSnapRefines(s: State, t: nat)
    requires Inv(s) && t < |s.threads| && CallOf(s, s.threads[t]) == Popping
    ensures SpecStep(Abs(s), t, Inside, Abs(Goto(s, t, PopTop(SnapStack(s)))))
  {
    CallsKept(s, Goto(s, t, PopTop(SnapStack(s))), t);
    if s.stack.ptr.Null? {
      assert s.stackChain == [];
    } else {
      SameCall(s, Goto(s, t, PopTop(SnapStack(s))), t);
    }
  }

  lemma {:induction false} PopTopRefines(s: State, t: nat, spurious: bool)
    requires Inv(s) && t < |s.threads| && s.threads[t].PopTop?
    ensures SpecStep(Abs(s), t, Inside, Abs(RunStep(s, t, spurious)))
  {
    var orig := s.threads[t].orig;
    var pc := if orig.head.ptr.Null? then PopDone(NIL) else PopStackCas(orig, ReadNext(s, orig.head.ptr));
    QuietRefines(s, t, pc);
  }

  lemma {:induction false} QuietRefines(s: State, t: nat, pc: Thread)
    requires Inv(s) && t < |s.threads| && CallOf(s, pc) == CallOf(s, s.threads[t])
    ensures Abs(Goto(s, t, pc)) == Abs(s)
  {
    CallsKept(s, Goto(s, t, pc), t);
    SameCall(s, Goto(s, t, pc), t);
  }

  lemma {:induction false} PopFreesRefines(s: State, t: nat, spurious: bool)
    requires Inv(s) && Enabled(s, t, Run(spurious)) && Timely(s, t) && InPop(s.threads[t]) && Owns(s.threads[t])
    ensures SpecStep(Abs(s), t, Inside, Abs(RunStep(s, t, spurious)))
  {
    var s' := RunStep(s, t, spurious);
    PopFreesCall(s, t, spurious);
    StepThreads(s, t, Run(spurious));
    NoData(s, t, spurious);
    CallsKept(s, s', t);
    SameCall(s, s', t);
  }

  lemma {:induction false} PopFreesCall(s: State, t: nat, spurious: bool)
    requires t < |s.threads| && InPop(s.threads[t]) && Owns(s.threads[t])
    ensures var s' := RunStep(s, t, spurious);
            && t < |s'.threads| && CallOf(s', s'.threads[t]) == CallOf(s, s.threads[t])
            && s'.stackChain == s.stackChain
  {
  }

  // A step that leaves the items and the thread's call as they are shows on nothing.
  lemma {:induction false} SameCall(s: State, s': State, t: nat)
    requires t < |s.threads| == |s'.threads| && Items(s') == Items(s)
    requires CallOf(s', s'.threads[t]) == CallOf(s, s.threads[t])
    requires Calls(s') == Calls(s)[t := CallOf(s', s'.threads[t])]
    ensures Abs(s') == Abs(s)
  {
    assert Calls(s)[t] == CallOf(s, s.threads[t]);
  }

  lemma {:induction false} StepRefines(s: State, t: nat, a: Action)
    requires Inv(s) && Enabled(s, t, a) && (a.Run? ==> Timely(s, t))
    ensures SpecStep(Abs(s), t, EventOf(s, t, a), Abs(Next(s, t, a)))
  {
    match a
    case Run(spurious) =>
      if InPop(s.threads[t]) { PopStepRefines(s, t, spurious); } else { PushStepRefines(s, t, spurious); }
    case _ => CallsKept(s, Next(s, t, a), t);
  }

  // A step changes no call but that of the thread that takes it.
  lemma {:induction false} StepCalls(s: State, t: nat, a: Action)
    requires Inv(s) && Enabled(s, t, a)
    ensures var s' := Next(s, t, a);
      |s'.threads| == |s.threads| && s'.threads == s.threads[t := s'.threads[t]] &&
      Calls(s') == Calls(s)[t := CallOf(s', s'.threads[t])]
  {
    var s' := Next(s, t, a);
    StepThreads(s, t, a);
    StepData(s, t, a);
    CallsKept(s, s', t);
  }

  // No step writes data but to the thread's own node.
  lemma {:induction false} StepData(s: State, t: nat, a: Action)
    requires t < |s.threads|
    ensures var s' := Next(s, t, a);
            && |s'.data| == |s.data|
            && forall n: nat :: n < |s.data| && !(Owns(s.threads[t]) && s.threads[t].node == n) ==>
                                  s'.data[n] == s.data[n]
  {
    if a.Run? && !s.threads[t].PushWriteData? { NoData(s, t, a.spurious); }
  }

  lemma {:induction false} NoData(s: State, t: nat, spurious: bool)
    requires t < |s.threads| && !s.threads[t].PushWriteData?
    ensures RunStep(s, t, spurious).data == s.data
  {
  }

  ghost predicate Refines(s: State, e: (nat, Action), s': State) {
    e.0 < |s.threads| && SpecStep(Abs(s), e.0, EventOf(s, e.0, e.1), Abs(s'))
  }

  // The main result: seen through Abs, every run is a run of the atomic stack
  // with the same calls and the same returned values in the same order.
  lemma {:induction false} RunRefines(run: seq<State>, sched: Schedule)
    requires IsRun(run, sched) && Init(run[0]) && TimelyRun(run, sched)
    ensures Abs(run[0]) == Spec([], seq(|run[0].threads|, _ => Free))
    ensures forall i :: 0 <= i < |sched| ==> Refines(run[i], sched[i], run[i + 1])
  {
    forall i | 0 <= i < |sched| ensures Refines(run[i], sched[i], run[i + 1]) {
      InvRun(run, sched, i);
      assert StepOk(run[i], sched[i], run[i + 1]) && TimelyStep(run[i], sched[i]);
      StepRefines(run[i], sched[i].0, sched[i].1);
    }
  }
}
