/** What a call returns is decided at one instant between its start and its end. */
module LfStackLinear {
  import opened LfStack
  import opened LfStackInvariant
  import opened LfStackRefinement
  import opened AtomicStack

  // The run and its schedule as a caller sees them.
  ghost function Seen(run: seq<State>): seq<Spec> { seq(|run|, i requires 0 <= i < |run| => Abs(run[i])) }

  ghost function Events(run: seq<State>, sched: Schedule): Log
    requires |run| == |sched| + 1 && forall i :: 0 <= i < |sched| ==> sched[i].0 < |run[i].threads|
  {
    seq(|sched|, i requires 0 <= i < |sched| => (sched[i].0, EventOf(run[i], sched[i].0, sched[i].1)))
  }

  lemma {:induction false} SeenIsSpecRun(run: seq<State>, sched: Schedule)
    requires IsRun(run, sched) && Init(run[0]) && TimelyRun(run, sched)
    ensures forall i :: 0 <= i < |sched| ==> sched[i].0 < |run[i].threads|
    ensures IsSpecRun(Seen(run), Events(run, sched)) && AllFree(Seen(run)[0])
  {
    RunRefines(run, sched);
    forall i | 0 <= i < |sched| ensures sched[i].0 < |run[i].threads| {
      assert Refines(run[i], sched[i], run[i + 1]);
    }
    var a, log := Seen(run), Events(run, sched);
    forall i | 0 <= i < |log| ensures SpecStep(a[i], log[i].0, log[i].1, a[i + 1]) {
      assert Refines(run[i], sched[i], run[i + 1]);
    }
  }

  // Between its start at s and its end at i, thread t changes the items at j at most.
  ghost predicate ActsAt(run: seq<State>, sched: Schedule, t: nat, s: nat, j: nat, i: nat) {
    && |run| == |sched| + 1 && s < j < i < |run| && sched[j].0 == t
    && forall k :: s < k < i && sched[k].0 == t ==>
                     sched[k].1.Run? && (k != j ==> Items(run[k + 1]) == Items(run[k]))
  }

  lemma {:induction false} ActsOnce(run: seq<State>, sched: Schedule, t: nat, s: nat, j: nat, i: nat)
    requires IsRun(run, sched) && Init(run[0]) && TimelyRun(run, sched) && s < j < i < |run|
    requires forall i :: 0 <= i < |sched| ==> sched[i].0 < |run[i].threads|
    requires Lull(Seen(run), Events(run, sched), t, s + 1, j) && Lull(Seen(run), Events(run, sched), t, j + 1, i)
    requires sched[j].0 == t && sched[j].1.Run?
    ensures ActsAt(run, sched, t, s, j, i)
  {
    var a, log := Seen(run), Events(run, sched);
    forall k | s < k < i && sched[k].0 == t && k != j
      ensures sched[k].1.Run? && Items(run[k + 1]) == Items(run[k])
    {
      assert log[k].0 == t && log[k].1 == Inside && a[k + 1] == a[k];
      assert StepOk(run[k], sched[k], run[k + 1]);
    }
  }

  // A pop that returns d took d off the top at some instant of the call, or found the
  // stack empty then.
  lemma {:induction false} PopIsAtomic(run: seq<State>, sched: Schedule, i: nat, t: nat, d: Data)
      returns (s: nat, j: nat)
    requires IsRun(run, sched) && Init(run[0]) && TimelyRun(run, sched) && i < |run|
    requires t < |run[i].threads| && run[i].threads[t] == PopDone(d)
    ensures ActsAt(run, sched, t, s, j, i) && sched[s] == (t, CallPop)
    ensures d == if Items(run[j]) == [] then NIL else Items(run[j])[0]
    ensures Items(run[j + 1]) == if Items(run[j]) == [] then [] else Items(run[j])[1..]
  {
    SeenIsSpecRun(run, sched);
    var a, log := Seen(run), Events(run, sched);
    s, j := TookEffect(a, log, t, i);
    assert StepOk(run[s], sched[s], run[s + 1]) && StepOk(run[j], sched[j], run[j + 1]);
    ActsOnce(run, sched, t, s, j, i);
  }

  // A push that returned true put its data on top at some instant of the call; one that
  // returned false changed nothing.
  lemma {:induction false} PushIsAtomic(run: seq<State>, sched: Schedule, i: nat, t: nat, ok: bool)
      returns (s: nat, j: nat, d: Data)
    requires IsRun(run, sched) && Init(run[0]) && TimelyRun(run, sched) && i < |run|
    requires t < |run[i].threads| && run[i].threads[t] == PushDone(ok)
    ensures ActsAt(run, sched, t, s, j, i) && sched[s] == (t, CallPush(d))
    ensures Items(run[j + 1]) == if ok then [d] + Items(run[j]) else Items(run[j])
  {
    SeenIsSpecRun(run, sched);
    var a, log := Seen(run), Events(run, sched);
    s, j := TookEffect(a, log, t, i);
    d := log[s].1.data;
    assert StepOk(run[s], sched[s], run[s + 1]) && StepOk(run[j], sched[j], run[j + 1]);
    ActsOnce(run, sched, t, s, j, i);
  }
}
