/** What is asked of stale exchanges cannot be dropped: after exactly 2^64 exchanges the
    generation is back where it was, and an exchange based on the old head succeeds.
    The run built here starts from a fresh stack and is timely up to that step.  The
    same goes for the bound on the counter of fresh nodes. */
module LfStackWrap {
  import opened LfStack
  import opened LfStackInvariant
  import opened Words
  import R = Runs

  // A step that is enabled and timely.
  ghost predicate TimelyOk(s: State, e: (nat, Action), s': State) { StepOk(s, e, s') && TimelyStep(s, e) }

  ghost predicate Leads(s: State, sched: Schedule, s': State) { R.Leads(TimelyOk, s, sched, s') }

  lemma {:induction false} Stay(s: State)
    ensures Leads(s, [], s)
  {
    R.Stay(TimelyOk, s);
  }

  lemma {:induction false} Then(s: State, sched: Schedule, m: State, t: nat, a: Action)
    requires Leads(s, sched, m) && Enabled(m, t, a) && (a.Run? ==> Timely(m, t))
    ensures Leads(s, sched + [(t, a)], Next(m, t, a))
  {
    R.Then(TimelyOk, s, sched, m, (t, a), Next(m, t, a));
  }

  lemma {:induction false} Concat(s: State, a: Schedule, m: State, b: Schedule, s': State)
    requires Leads(s, a, m) && Leads(m, b, s')
    ensures Leads(s, a + b, s')
  {
    R.Concat(TimelyOk, s, a, m, b, s');
  }

  const STEP: Action := Run(false)

  // ---- What one call does when nobody else moves ----

  function Steps(t: nat, n: nat): Schedule { seq(n, _ => (t, STEP)) }

  ghost predicate Walks(path: seq<State>, t: nat) {
    forall i :: 0 <= i < |path| - 1 ==>
      (Enabled(path[i], t, STEP) && Timely(path[i], t) && path[i + 1] == RunStep(path[i], t, false))
  }

  lemma {:induction false} SoloMany(s: State, sched: Schedule, path: seq<State>, t: nat)
    requires path != [] && Leads(s, sched, path[0]) && Walks(path, t)
    ensures Leads(s, sched + Steps(t, |path| - 1), path[|path| - 1])
    decreases |path|
  {
    if |path| == 1 {
      assert sched + Steps(t, 0) == sched;
    } else {
      Then(s, sched, path[0], t, STEP);
      SoloMany(s, sched + [(t, STEP)], path[1..], t);
      assert sched + [(t, STEP)] + Steps(t, |path| - 2) == sched + Steps(t, |path| - 1);
    }
  }

  ghost predicate Ready(s: State, t: nat) {
    t < |s.threads| && s.threads[t] == Idle && |s.next| == |s.data| == s.nodemax
  }

  // Node n is linked on top of the stack with data d.
  function Linked'(s: State, n: nat, d: Data): State
    requires n < |s.next| == |s.data|
  {
    s.(data := s.data[n := d], next := s.next[n := s.stack.ptr], written := s.written + {n},
       stack := Head(Node(n), Bump(s.stack.gen)), stackX := s.stackX + 1, stackChain := [n] + s.stackChain)
  }

  // The top node leaves the stack.
  function Unlinked(s: State, n: nat): State
    requires n < |s.next|
  {
    s.(stack := Head(s.next[n], Bump(s.stack.gen)), stackX := s.stackX + 1, stackChain := Rest(s.stackChain))
  }

  // The top node leaves the cache.
  function Reused(s: State, n: nat): State
    requires n < |s.next|
  {
    s.(cache := Head(s.next[n], Bump(s.cache.gen)), cacheX := s.cacheX + 1, cacheChain := Rest(s.cacheChain))
  }

  function Freed(s: State, n: nat): State
    requires n < |s.next|
  {
    s.(next := s.next[n := s.cache.ptr], written := s.written + {n},
       cache := Head(Node(n), Bump(s.cache.gen)), cacheX := s.cacheX + 1, cacheChain := [n] + s.cacheChain)
  }

  lemma {:induction false} MoreSteps(sched: Schedule, t: nat, n: nat, m: nat)
    ensures sched + Steps(t, n) + Steps(t, m) == sched + Steps(t, n + m)
  {
  }

  // A push that owns node n writes to it what it may, then gives it to the stack.
  lemma {:induction false} FillsNode(s: State, sched: Schedule, m: State, t: nat, n: nat, d: Data)
    requires Ready(m, t) && n < m.nodemax && Leads(s, sched, Goto(m, t, PushWriteData(d, n)))
    ensures Leads(s, sched + Steps(t, 2), Goto(WriteData(m, n, d), t, PushWriteNext(n, SnapStack(m))))
  {
    var w := WriteData(m, n, d);
    var path := [Goto(m, t, PushWriteData(d, n)), Goto(w, t, PushLoadStack(n)),
                 Goto(w, t, PushWriteNext(n, SnapStack(m)))];
    assert Walks(path, t);
    SoloMany(s, sched, path, t);
  }

  lemma {:induction false} LinksNode(s: State, sched: Schedule, m: State, t: nat, n: nat, d: Data)
    requires Ready(m, t) && n < m.nodemax
    requires Leads(s, sched, Goto(WriteData(m, n, d), t, PushWriteNext(n, SnapStack(m))))
    ensures Leads(s, sched + Steps(t, 2), Goto(Linked'(m, n, d), t, PushDone(true)))
  {
    var w := WriteData(m, n, d);
    var l := WriteNext(w, n, m.stack.ptr);
    var path := [Goto(w, t, PushWriteNext(n, SnapStack(m))), Goto(l, t, PushStackCas(n, SnapStack(m))),
                 Goto(Linked'(m, n, d), t, PushDone(true))];
    assert path[2] == RunStep(path[1], t, false);
    assert Walks(path, t);
    SoloMany(s, sched, path, t);
  }

  lemma {:induction false} Returns(s: State, sched: Schedule, m: State, t: nat, pc: Thread)
    requires t < |m.threads| && m.threads[t] == Idle && (pc.PushDone? || pc.PopDone?)
    requires Leads(s, sched, Goto(m, t, pc))
    ensures Leads(s, sched + [(t, Return)], m)
  {
    Then(s, sched, Goto(m, t, pc), t, Return);
    assert m.threads[t := pc][t := Idle] == m.threads;
  }

  // So it runs to its end.
  lemma {:induction false} FinishPush(s: State, sched: Schedule, m: State, t: nat, n: nat, d: Data)
    requires Ready(m, t) && n < m.nodemax && Leads(s, sched, Goto(m, t, PushWriteData(d, n)))
    ensures Leads(s, sched + Steps(t, 4) + [(t, Return)], Linked'(m, n, d))
  {
    FillsNode(s, sched, m, t, n, d);
    LinksNode(s, sched + Steps(t, 2), m, t, n, d);
    MoreSteps(sched, t, 2, 2);
    Returns(s, sched + Steps(t, 4), Linked'(m, n, d), t, PushDone(true));
  }

  // A push on its own that takes the first node of the cache, or a fresh one.
  function PushReused(t: nat, d: Data): Schedule { [(t, CallPush(d))] + Steps(t, 3) + Steps(t, 4) + [(t, Return)] }

  function PushFresh(t: nat, d: Data): Schedule { [(t, CallPush(d))] + Steps(t, 2) + Steps(t, 4) + [(t, Return)] }

  function Pop(t: nat): Schedule { PopHalf(t) + Steps(t, 4) + [(t, Return)] }

  // A pop that stops right after its exchange, owning the node.
  function PopHalf(t: nat): Schedule { [(t, CallPop)] + Steps(t, 3) }

  lemma {:induction false} Begins(s: State, t: nat, a: Action)
    requires Enabled(s, t, a) && !a.Run?
    ensures Leads(s, [(t, a)], Next(s, t, a))
  {
    Stay(s);
    Then(s, [], s, t, a);
    assert [] + [(t, a)] == [(t, a)];
  }

  lemma {:induction false} TakesFree(s: State, t: nat, n: nat, d: Data)
    requires Ready(s, t) && n < s.nodemax && s.cache.ptr == Node(n)
    ensures Leads(s, [(t, CallPush(d))] + Steps(t, 3), Goto(Reused(s, n), t, PushWriteData(d, n)))
  {
    Begins(s, t, CallPush(d));
    var path := [Goto(s, t, PushLoadCache(d)), Goto(s, t, PushTop(d, SnapCache(s))),
                 Goto(s, t, PushCacheCas(d, SnapCache(s), s.next[n])), Goto(Reused(s, n), t, PushWriteData(d, n))];
    assert path[3] == RunStep(path[2], t, false);
    assert Walks(path, t);
    SoloMany(s, [(t, CallPush(d))], path, t);
  }

  lemma {:induction false} SoloPushReused(s: State, t: nat, n: nat, d: Data)
    requires Ready(s, t) && n < s.nodemax && s.cache.ptr == Node(n)
    ensures Leads(s, PushReused(t, d), Linked'(Reused(s, n), n, d))
  {
    TakesFree(s, t, n, d);
    FinishPush(s, [(t, CallPush(d))] + Steps(t, 3), Reused(s, n), t, n, d);
  }

  lemma {:induction false} TakesFresh(s: State, t: nat, d: Data)
    requires Ready(s, t) && s.nodec < s.nodemax && s.nodec + 1 < WORD && s.cache.ptr == Null
    ensures Leads(s, [(t, CallPush(d))] + Steps(t, 2),
                  Goto(s.(nodec := s.nodec + 1), t, PushWriteData(d, s.nodec)))
  {
    Begins(s, t, CallPush(d));
    var m := s.(nodec := s.nodec + 1);
    var path := [Goto(s, t, PushLoadCache(d)), Goto(s, t, PushTop(d, SnapCache(s))),
                 Goto(m, t, PushWriteData(d, s.nodec))];
    assert path[2] == RunStep(path[1], t, false);
    assert Walks(path, t);
    SoloMany(s, [(t, CallPush(d))], path, t);
  }

  lemma {:induction false} SoloPushFresh(s: State, t: nat, d: Data)
    requires Ready(s, t) && s.nodec < s.nodemax && s.nodec + 1 < WORD && s.cache.ptr == Null
    ensures Leads(s, PushFresh(t, d), Linked'(s.(nodec := s.nodec + 1), s.nodec, d))
  {
    TakesFresh(s, t, d);
    FinishPush(s, [(t, CallPush(d))] + Steps(t, 2), s.(nodec := s.nodec + 1), t, s.nodec, d);
  }

  lemma {:induction false} SoloPopHalf(s: State, t: nat, n: nat)
    requires Ready(s, t) && n < s.nodemax && s.stack.ptr == Node(n)
    ensures Leads(s, PopHalf(t), Goto(Unlinked(s, n), t, PopReadData(n)))
  {
    Begins(s, t, CallPop);
    var path := [Goto(s, t, PopLoadStack), Goto(s, t, PopTop(SnapStack(s))),
                 Goto(s, t, PopStackCas(SnapStack(s), s.next[n])), Goto(Unlinked(s, n), t, PopReadData(n))];
    assert path[3] == RunStep(path[2], t, false);
    assert Walks(path, t);
    SoloMany(s, [(t, CallPop)], path, t);
  }

  // A pop that owns node n reads the data, then gives it to the cache.
  lemma {:induction false} ReadsNode(s: State, sched: Schedule, m: State, t: nat, n: nat)
    requires Ready(m, t) && n < m.nodemax && Leads(s, sched, Goto(m, t, PopReadData(n)))
    ensures Leads(s, sched + Steps(t, 2), Goto(m, t, PopWriteNext(n, m.data[n], SnapCache(m))))
  {
    var d := m.data[n];
    var path := [Goto(m, t, PopReadData(n)), Goto(m, t, PopLoadCache(n, d)),
                 Goto(m, t, PopWriteNext(n, d, SnapCache(m)))];
    assert Walks(path, t);
    SoloMany(s, sched, path, t);
  }

  lemma {:induction false} FreesNode(s: State, sched: Schedule, m: State, t: nat, n: nat)
    requires Ready(m, t) && n < m.nodemax && Leads(s, sched, Goto(m, t, PopWriteNext(n, m.data[n], SnapCache(m))))
    ensures Leads(s, sched + Steps(t, 2), Goto(Freed(m, n), t, PopDone(m.data[n])))
  {
    var d := m.data[n];
    var w := WriteNext(m, n, m.cache.ptr);
    var path := [Goto(m, t, PopWriteNext(n, d, SnapCache(m))), Goto(w, t, PopCacheCas(n, d, SnapCache(m))),
                 Goto(Freed(m, n), t, PopDone(d))];
    assert path[2] == RunStep(path[1], t, false);
    assert Walks(path, t);
    SoloMany(s, sched, path, t);
  }

  lemma {:induction false} FinishPop(s: State, sched: Schedule, m: State, t: nat, n: nat)
    requires Ready(m, t) && n < m.nodemax && Leads(s, sched, Goto(m, t, PopReadData(n)))
    ensures Leads(s, sched + Steps(t, 4) + [(t, Return)], Freed(m, n))
  {
    ReadsNode(s, sched, m, t, n);
    FreesNode(s, sched + Steps(t, 2), m, t, n);
    MoreSteps(sched, t, 2, 2);
    Returns(s, sched + Steps(t, 4), Freed(m, n), t, PopDone(m.data[n]));
  }

  lemma {:induction false} SoloPop(s: State, t: nat, n: nat)
    requires Ready(s, t) && n < s.nodemax && s.stack.ptr == Node(n)
    ensures Leads(s, Pop(t), Freed(Unlinked(s, n), n))
  {
    SoloPopHalf(s, t, n);
    FinishPop(s, PopHalf(t), Unlinked(s, n), t, n);
  }

  // ---- The run ----

  const A: nat := 0  // reads the head, then sleeps
  const B: nat := 1  // turns the generation
  const C: nat := 2  // keeps node 1
  const D: nat := 3  // keeps node 0

  // Node 2 alone on the stack after x exchanges on it, with nodes 1 and 0 kept by C and D.
  function Turning(x: nat, cx: nat, a: Thread): State {
    State(3, 3, Head(Null, Gen(cx)), Head(Node(2), Gen(x)), [Null, Node(0), Null], [10, 11, 12],
          [a, Idle, PopReadData(1), PopReadData(0)], [2], [], x, cx, {0, 1, 2})
  }

  // The same while node 2 is in the cache.
  function Turned(x: nat, cx: nat, a: Thread): State {
    Turning(x, cx, a).(stack := Head(Null, Gen(x)), cache := Head(Node(2), Gen(cx)),
                       stackChain := [], cacheChain := [2])
  }

  // B pops node 2 and pushes it back: two exchanges further, nothing else changed.
  lemma {:induction false} PopTurns(x: nat, cx: nat, a: Thread)
    ensures Leads(Turning(x, cx, a), Pop(B), Turned(x + 1, cx + 1, a))
  {
    SoloPop(Turning(x, cx, a), B, 2);
    assert Freed(Unlinked(Turning(x, cx, a), 2), 2) == Turned(x + 1, cx + 1, a);
  }

  lemma {:induction false} PushTurns(x: nat, cx: nat, a: Thread)
    ensures Leads(Turned(x, cx, a), PushReused(B, 12), Turning(x + 1, cx + 1, a))
  {
    SoloPushReused(Turned(x, cx, a), B, 2, 12);
    assert Linked'(Reused(Turned(x, cx, a), 2), 2, 12) == Turning(x + 1, cx + 1, a);
  }

  lemma {:induction false} OneTurn(x: nat, cx: nat, a: Thread)
    ensures Leads(Turning(x, cx, a), Pop(B) + PushReused(B, 12), Turning(x + 2, cx + 2, a))
  {
    PopTurns(x, cx, a);
    PushTurns(x + 1, cx + 1, a);
    Concat(Turning(x, cx, a), Pop(B), Turned(x + 1, cx + 1, a), PushReused(B, 12), Turning(x + 2, cx + 2, a));
  }

  lemma {:induction false} ManyTurns(x: nat, cx: nat, a: Thread, k: nat) returns (sched: Schedule)
    ensures Leads(Turning(x, cx, a), sched, Turning(x + 2 * k, cx + 2 * k, a))
    decreases k
  {
    if k == 0 {
      Stay(Turning(x, cx, a));
      sched := [];
    } else {
      OneTurn(x, cx, a);
      var rest := ManyTurns(x + 2, cx + 2, a, k - 1);
      sched := (Pop(B) + PushReused(B, 12)) + rest;
      Concat(Turning(x, cx, a), Pop(B) + PushReused(B, 12), Turning(x + 2, cx + 2, a), rest,
             Turning(x + 2 * k, cx + 2 * k, a));
    }
  }

  // A as it sleeps: it saw node 2 on top, with node 1 below, after three exchanges.
  const SLEEPER: Thread := PopStackCas(Snap(Head(Node(2), 3), 3), Node(1))

  // The stack after B has pushed the first k of 10, 11 and 12.
  function Filling(k: nat): State
    requires k <= 3
  {
    State(3, k, Head(Null, 0), Head(if k == 0 then Null else Node(k - 1), k),
          [Null, if k > 1 then Node(0) else Null, if k > 2 then Node(1) else Null],
          [if k > 0 then 10 else 0, if k > 1 then 11 else 0, if k > 2 then 12 else 0], [Idle, Idle, Idle, Idle],
          if k == 0 then [] else if k == 1 then [0] else if k == 2 then [1, 0] else [2, 1, 0], [], k, 0,
          if k == 0 then {} else if k == 1 then {0} else if k == 2 then {0, 1} else {0, 1, 2})
  }

  lemma {:induction false} FillStep(k: nat)
    requires k < 3
    ensures Leads(Filling(k), PushFresh(B, 10 + k), Filling(k + 1))
  {
    SoloPushFresh(Filling(k), B, 10 + k);
    assert Linked'(Filling(k).(nodec := k + 1), k, 10 + k) == Filling(k + 1);
  }

  lemma {:induction false} Fill(k: nat) returns (sched: Schedule)
    requires k <= 3
    ensures Leads(Filling(0), sched, Filling(k))
  {
    if k == 0 {
      Stay(Filling(0));
      sched := [];
    } else {
      var first := Fill(k - 1);
      FillStep(k - 1);
      sched := first + PushFresh(B, 9 + k);
      Concat(Filling(0), first, Filling(k - 1), PushFresh(B, 9 + k), Filling(k));
    }
  }

  // Everything from A's two reads to the start of the turning.
  function Asleep(): State { Goto(Filling(3), A, SLEEPER) }

  lemma {:induction false} Sleep(s: State, sched: Schedule)
    requires Leads(s, sched, Filling(3))
    ensures Leads(s, sched + [(A, CallPop)] + Steps(A, 2), Asleep())
  {
    SleepsAfter(Filling(3));
    Concat(s, sched, Filling(3), [(A, CallPop)] + Steps(A, 2), Asleep());
    assert sched + ([(A, CallPop)] + Steps(A, 2)) == sched + [(A, CallPop)] + Steps(A, 2);
  }

  // A pop of A reads the head and, through it, the node below.
  lemma {:induction false} SleepsAfter(f: State)
    requires Ready(f, A) && f.stack == Head(Node(2), 3) && f.stackX == 3 && 2 < f.nodemax && f.next[2] == Node(1)
    ensures Leads(f, [(A, CallPop)] + Steps(A, 2), Goto(f, A, SLEEPER))
  {
    Begins(f, A, CallPop);
    var path := [Goto(f, A, PopLoadStack), Goto(f, A, PopTop(SnapStack(f))), Goto(f, A, SLEEPER)];
    assert path[2] == RunStep(path[1], A, false);
    assert Walks(path, A);
    SoloMany(f, [(A, CallPop)], path, A);
  }

  // B has popped node 2 into the cache.
  function Freed2(): State {
    Asleep().(stack := Head(Node(1), 4), stackX := 4, stackChain := [1, 0],
              next := [Null, Node(0), Null], cache := Head(Node(2), 1), cacheX := 1, cacheChain := [2])
  }

  // C has taken node 1.
  function Kept1(): State {
    Freed2().(stack := Head(Node(0), 5), stackX := 5, stackChain := [0],
              threads := [SLEEPER, Idle, PopReadData(1), Idle])
  }

  lemma {:induction false} FreesNode2()
    ensures Leads(Asleep(), Pop(B), Freed2())
  {
    SoloPop(Asleep(), B, 2);
    assert Freed(Unlinked(Asleep(), 2), 2) == Freed2();
  }

  lemma {:induction false} KeepsNode1()
    ensures Leads(Freed2(), PopHalf(C), Kept1())
  {
    SoloPopHalf(Freed2(), C, 1);
    assert Goto(Unlinked(Freed2(), 1), C, PopReadData(1)) == Kept1();
  }

  lemma {:induction false} KeepsNode0()
    ensures Leads(Kept1(), PopHalf(D), Turned(6, 1, SLEEPER))
  {
    SoloPopHalf(Kept1(), D, 0);
    GenWraps(6);
    GenWraps(1);
    assert Goto(Unlinked(Kept1(), 0), D, PopReadData(0)) == Turned(6, 1, SLEEPER);
  }

  lemma {:induction false} Prepare() returns (sched: Schedule)
    ensures Leads(Filling(0), sched, Turning(7, 2, SLEEPER))
  {
    var fill := Fill(3);
    Sleep(Filling(0), fill);
    FreesNode2();
    KeepsNode1();
    KeepsNode0();
    PushTurns(6, 1, SLEEPER);
    var a := fill + [(A, CallPop)] + Steps(A, 2);
    Concat(Filling(0), a, Asleep(), Pop(B), Freed2());
    Concat(Filling(0), a + Pop(B), Freed2(), PopHalf(C), Kept1());
    Concat(Filling(0), a + Pop(B) + PopHalf(C), Kept1(), PopHalf(D), Turned(6, 1, SLEEPER));
    sched := a + Pop(B) + PopHalf(C) + PopHalf(D) + PushReused(B, 12);
    Concat(Filling(0), a + Pop(B) + PopHalf(C) + PopHalf(D), Turned(6, 1, SLEEPER), PushReused(B, 12),
           Turning(7, 2, SLEEPER));
  }

  // After A's late exchange B takes node 1 as well.
  lemma {:induction false} TakesTwice(x: nat, cx: nat)
    ensures Leads(RunStep(Turning(x, cx, SLEEPER).(stack := Head(Node(2), 3)), A, false), PopHalf(B),
                  Goto(Unlinked(RunStep(Turning(x, cx, SLEEPER).(stack := Head(Node(2), 3)), A, false), 1), B,
                       PopReadData(1)))
  {
    SoloPopHalf(RunStep(Turning(x, cx, SLEEPER).(stack := Head(Node(2), 3)), A, false), B, 1);
  }

  // From a fresh stack, through timely steps only, thread A comes to an exchange
  // that is exactly 2^64 exchanges late.  It succeeds, and after it a pop takes a
  // node that another pop already owns: an item pushed once is popped twice.
  lemma {:induction false} LateExchangeBreaksTheStack()
    returns (before: Schedule, s: State, after: Schedule, end: State)
    ensures Init(Filling(0)) && Leads(Filling(0), before, s)
    ensures A < |s.threads| && s.threads[A].PopStackCas? && s.stack == s.threads[A].orig.head
    ensures s.stackX == s.threads[A].orig.at + WORD
    ensures Leads(RunStep(s, A, false), after, end)
    ensures |end.threads| == 4 && end.threads[B] == PopReadData(1) && end.threads[C] == PopReadData(1)
  {
    var k := WORD / 2 - 2;
    var prepare := Prepare();
    var turns := ManyTurns(7, 2, SLEEPER, k);
    s := Turning(7 + 2 * k, 2 + 2 * k, SLEEPER);
    before := prepare + turns;
    Concat(Filling(0), prepare, Turning(7, 2, SLEEPER), turns, s);
    GenWraps(7 + 2 * k);
    assert s == s.(stack := Head(Node(2), 3));
    TakesTwice(7 + 2 * k, 2 + 2 * k);
    after := PopHalf(B);
    end := Goto(Unlinked(RunStep(s, A, false), 1), B, PopReadData(1));
  }

  // A stale exchange whose pointer came back succeeds exactly after full turns.
  lemma {:induction false} StaleExchangeSucceedsIff(orig: Snap, now: Head, x: nat)
    requires orig.at <= x && orig.head.gen == Gen(orig.at) && now.gen == Gen(x) && now.ptr == orig.head.ptr
    ensures now == orig.head <==> (x - orig.at) % WORD == 0
  {
    GenWraps(x);
    GenWraps(orig.at);
    SameResidue(x, orig.at);
  }

  // ---- The counter of fresh nodes ----

  // All three nodes are on the stack, and x pushes have asked for a fresh one.
  function Full(x: nat): State { Filling(3).(nodec := x) }

  // A push that is refused: it still moves the counter.
  function Refused(t: nat, d: Data): Schedule { [(t, CallPush(d))] + Steps(t, 2) + [(t, Return)] }

  lemma {:induction false} RefusedCounts(x: nat)
    requires 3 <= x && x + 1 < WORD
    ensures Leads(Full(x), Refused(B, 13), Full(x + 1))
  {
    var s, m := Full(x), Full(x + 1);
    Begins(s, B, CallPush(13));
    var path := [Goto(s, B, PushLoadCache(13)), Goto(s, B, PushTop(13, SnapCache(s))), Goto(m, B, PushDone(false))];
    assert path[2] == RunStep(path[1], B, false);
    assert Walks(path, B);
    SoloMany(s, [(B, CallPush(13))], path, B);
    Returns(s, [(B, CallPush(13))] + Steps(B, 2), m, B, PushDone(false));
  }

  lemma {:induction false} ManyRefused(x: nat) returns (sched: Schedule)
    requires 3 <= x < WORD
    ensures Leads(Filling(0), sched, Full(x))
    decreases x
  {
    if x == 3 {
      sched := Fill(3);
      assert Full(3) == Filling(3);
    } else {
      var first := ManyRefused(x - 1);
      RefusedCounts(x - 1);
      sched := first + Refused(B, 13);
      Concat(Filling(0), first, Full(x - 1), Refused(B, 13), Full(x));
    }
  }

  ghost predicate Walked(s: State, sched: Schedule, s': State) { R.Leads(StepOk, s, sched, s') }

  lemma {:induction false} WalkOn(s: State, sched: Schedule, m: State, a: Action)
    requires Walked(s, sched, m) && Enabled(m, B, a)
    ensures Walked(s, sched + [(B, a)], Next(m, B, a))
  {
    R.Then(StepOk, s, sched, m, (B, a), Next(m, B, a));
  }

  // Nor can the bound on the counter be dropped.  After refused pushes have brought it to
  // 2^64 - 1 the next one wraps it, and the push after that is given a node that is on
  // the stack.
  lemma {:induction false} WrappedCounterBreaksTheStack() returns (before: Schedule, after: Schedule, end: State)
    ensures Init(Filling(0)) && Leads(Filling(0), before, Full(WORD - 1)) && Walked(Full(WORD - 1), after, end)
    ensures B < |end.threads| && end.threads[B] == PushWriteData(14, 0) && 0 in end.stackChain
  {
    before := ManyRefused(WORD - 1);
    var s := Full(WORD - 1);
    var wrapped := Full(0);
    var refuse := RefuseWraps();
    var asked := Goto(wrapped, B, PushLoadCache(14));
    WalkOn(s, refuse, wrapped, CallPush(14));
    WalkOn(s, refuse + [(B, CallPush(14))], asked, STEP);
    var top := Goto(wrapped, B, PushTop(14, SnapCache(wrapped)));
    assert Next(asked, B, STEP) == top;
    WalkOn(s, refuse + [(B, CallPush(14))] + [(B, STEP)], top, STEP);
    after := refuse + [(B, CallPush(14))] + [(B, STEP)] + [(B, STEP)];
    end := Next(top, B, STEP);
  }

  lemma {:induction false} RefuseWraps() returns (sched: Schedule)
    ensures Walked(Full(WORD - 1), sched, Full(0))
  {
    var s := Full(WORD - 1);
    R.Stay<State, (nat, Action)>(StepOk, s);
    WalkOn(s, [], s, CallPush(13));
    var asked := Goto(s, B, PushLoadCache(13));
    WalkOn(s, [] + [(B, CallPush(13))], asked, STEP);
    var top := Goto(s, B, PushTop(13, SnapCache(s)));
    assert Next(asked, B, STEP) == top;
    WalkOn(s, [] + [(B, CallPush(13))] + [(B, STEP)], top, STEP);
    var done := Goto(Full(0), B, PushDone(false));
    assert Next(top, B, STEP) == done;
    WalkOn(s, [] + [(B, CallPush(13))] + [(B, STEP)] + [(B, STEP)], done, Return);
    sched := [] + [(B, CallPush(13))] + [(B, STEP)] + [(B, STEP)] + [(B, Return)];
    assert Next(done, B, Return) == Full(0);
  }
}
