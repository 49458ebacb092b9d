/** When a pop of the benchmark can find the stack empty: the threads pop one after the
    other, each keeping its item, until no item is left for the next. */
module StackBenchmarkEmpty {
  import opened LfStack
  import opened LfStackInvariant
  import opened StackBenchmark
  import opened Words
  import R = Runs

  type Sched = seq<(nat, bool)>

  ghost predicate Reached(b: Bench, b': Bench) {
    exists sched: Sched :: R.Leads(BenchStep, b, sched, b')
  }

  // Thread t takes a step inside the stack.
  lemma {:induction false} Go(b: Bench, m: Bench, t: nat) returns (b': Bench)
    requires Reached(b, m) && Inv(m.s) && CanStep(m, t) && Timely(m.s, t)
    requires m.clients[t].Between? || (m.clients[t].InsidePop? && !m.s.threads[t].PopDone?)
    ensures b' == m.(s := Next(m.s, t, StackAction(m, t, false)), clients := m.clients[t := InsidePop])
    ensures Reached(b, b') && Inv(b'.s)
  {
    b' := Step(m, t, false);
    var sched: Sched :| R.Leads(BenchStep, b, sched, m);
    assert BenchStep(m, (t, false), b');
    R.Then(BenchStep, b, sched, m, (t, false), b');
    InvStep(m.s, t, StackAction(m, t, false));
    assert b'.clients == m.clients[t := InsidePop];
  }

  // The threads from j on have not begun.
  ghost predicate Waiting(b: Bench, j: nat) {
    && |b.clients| == |b.s.threads|
    && forall t: nat :: j <= t < |b.clients| ==> b.clients[t] == Between && b.s.threads[t] == Idle
  }

  // Thread j calls pop and reads the head of the stack.
  lemma {:induction false} Looks(b: Bench, m: Bench, j: nat) returns (b': Bench)
    requires Reached(b, m) && Inv(m.s) && Waiting(m, j) && j < |m.clients|
    ensures Reached(b, b') && Inv(b'.s) && Waiting(b', j + 1) && |b'.clients| == |m.clients|
    ensures b'.clients[j] == InsidePop && b'.s.threads[j] == PopTop(SnapStack(m.s))
    ensures b'.s.stack == m.s.stack && b'.s.stackX == m.s.stackX && b'.s.stackChain == m.s.stackChain
  {
    b' := Go(b, m, j);
    b' := Go(b, b', j);
  }

  // And takes the node at the top.
  lemma {:induction false} Takes(b: Bench, m: Bench, j: nat) returns (b': Bench)
    requires Reached(b, m) && Inv(m.s) && Waiting(m, j) && j < |m.clients| && m.s.stackChain != []
    ensures Reached(b, b') && Inv(b'.s) && Waiting(b', j + 1) && |b'.clients| == |m.clients|
    ensures b'.s.stackChain == m.s.stackChain[1..]
  {
    var p := Looks(b, m, j);
    var orig := SnapStack(m.s);
    p := Go(b, p, j);
    b' := Unlinks(b, p, j, orig);
  }

  // The exchange on a head that nobody moved.
  lemma {:induction false} Unlinks(b: Bench, m: Bench, j: nat, orig: Snap) returns (b': Bench)
    requires Reached(b, m) && Inv(m.s) && Waiting(m, j + 1) && j < |m.clients| && m.s.stackChain != []
    requires m.clients[j] == InsidePop && m.s.threads[j].PopStackCas?
    requires m.s.threads[j].orig == orig == SnapStack(m.s)
    ensures Reached(b, b') && Inv(b'.s) && Waiting(b', j + 1) && |b'.clients| == |m.clients|
    ensures b'.s.stackChain == m.s.stackChain[1..]
  {
    assert m.s.stack.ptr.Node?;
    b' := Go(b, m, j);
    assert b'.s == TakeStack(m.s, j, orig, m.s.threads[j].next);
  }

  lemma {:induction false} TakesMany(b: Bench, items: seq<Data>, j: nat) returns (b': Bench)
    requires Start(b, items) && j <= |items| && j <= |b.clients|
    ensures Reached(b, b') && Inv(b'.s) && Waiting(b', j) && |b'.clients| == |b.clients|
    ensures |b'.s.stackChain| == |items| - j
  {
    if j == 0 {
      b' := b;
      R.Stay(BenchStep, b);
      NoOwners(b.s.threads);
    } else {
      var m := TakesMany(b, items, j - 1);
      b' := Takes(b, m, j - 1);
    }
  }

  // With more threads than items: the one after the last item is taken finds none.
  lemma {:induction false} FindsEmpty(b: Bench, items: seq<Data>) returns (b': Bench)
    requires Start(b, items) && |items| < |b.clients|
    ensures Reached(b, b') && |items| < |b'.s.threads| && b'.s.threads[|items|] == PopDone(NIL)
  {
    var m := TakesMany(b, items, |items|);
    b' := Looks(b, m, |items|);
    b' := Go(b, b', |items|);
  }

  ghost predicate NeverEmpty(b: Bench) {
    forall b' :: Reached(b, b') ==> forall t: nat :: t < |b'.s.threads| ==> b'.s.threads[t] != PopDone(NIL)
  }

  // From any start, no pop of any run returns NULL if and only if there are at most as
  // many threads as items.
  lemma {:induction false} PopFindsEmptyIff(b: Bench, items: seq<Data>)
    requires Start(b, items)
    ensures NeverEmpty(b) <==> |b.clients| <= |items|
  {
    if |b.clients| <= |items| {
      forall b', t: nat | Reached(b, b') && t < |b'.s.threads| ensures b'.s.threads[t] != PopDone(NIL) {
        var sched: Sched :| R.Leads(BenchStep, b, sched, b');
        var run: seq<Bench> :| R.Is(BenchStep, run, sched) && run[0] == b && run[|sched|] == b';
        PopNeverFindsEmpty(run, sched, items, |sched|, t);
      }
    } else {
      var b' := FindsEmpty(b, items);
    }
  }
}
