/** What a caller of the stack may rely on: each call takes effect at one instant
    between its start and its end.  This is the reference the lock-free stack is
    measured against; it knows neither nodes nor heads. */
module AtomicStack {
  import opened LfStack

  datatype Call = Free | Pushing(data: Data) | Pushed(ok: bool) | Popping | Popped(data: Data)

  // The data pointers on the stack, top first, and the call each thread is in.
  datatype Spec = Spec(items: seq<Data>, calls: seq<Call>)

  datatype Event = StartPush(data: Data) | StartPop | EndPush(ok: bool) | EndPop(data: Data) | Inside

  // The instant a call takes effect.  A push may find no room.
  ghost predicate TakesEffect(a: Spec, t: nat, a': Spec)
    requires t < |a.calls|
  {
    match a.calls[t]
    case Pushing(d) =>
      || a' == Spec([d] + a.items, a.calls[t := Pushed(true)])
      || a' == a.(calls := a.calls[t := Pushed(false)])
    case Popping =>
      if a.items == [] then a' == a.(calls := a.calls[t := Popped(NIL)])
      else a' == Spec(a.items[1..], a.calls[t := Popped(a.items[0])])
    case _ => false
  }

  ghost predicate SpecStep(a: Spec, t: nat, e: Event, a': Spec) {
    && t < |a.calls|
    && match e
       case StartPush(d) => a.calls[t] == Free && a' == a.(calls := a.calls[t := Pushing(d)])
       case StartPop => a.calls[t] == Free && a' == a.(calls := a.calls[t := Popping])
       case EndPush(ok) => a.calls[t] == Pushed(ok) && a' == a.(calls := a.calls[t := Free])
       case EndPop(d) => a.calls[t] == Popped(d) && a' == a.(calls := a.calls[t := Free])
       case Inside => a' == a || TakesEffect(a, t, a')
  }

  // ---- Each call takes effect once, between its start and its end ----

  type Log = seq<(nat, Event)>

  ghost predicate IsSpecRun(run: seq<Spec>, log: Log) {
    && |run| == |log| + 1
    && forall i :: 0 <= i < |log| ==> SpecStep(run[i], log[i].0, log[i].1, run[i + 1])
  }

  ghost predicate AllFree(a: Spec) { forall t :: 0 <= t < |a.calls| ==> a.calls[t] == Free }

  // From step i up to step j the thread does nothing that shows.
  ghost predicate Lull(run: seq<Spec>, log: Log, t: nat, i: nat, j: nat)
    requires j <= |log| < |run|
  {
    forall k :: i <= k < j && log[k].0 == t ==> log[k].1 == Inside && run[k + 1] == run[k]
  }

  lemma {:induction false} OneMoreLull(run: seq<Spec>, log: Log, t: nat, i: nat, j: nat)
    requires j < |log| < |run| && Lull(run, log, t, i, j)
    requires log[j].0 != t || (log[j].1 == Inside && run[j + 1] == run[j])
    ensures Lull(run, log, t, i, j + 1)
  {
  }

  // A call that has not taken effect yet has only been started.
  lemma {:induction false} Started(run: seq<Spec>, log: Log, t: nat, i: nat, e: Event) returns (s: nat)
    requires IsSpecRun(run, log) && AllFree(run[0]) && i < |run|
    requires e.StartPush? || e.StartPop?
    requires t < |run[i].calls| && run[i].calls[t] == if e.StartPush? then Pushing(e.data) else Popping
    ensures s < i && log[s] == (t, e) && Lull(run, log, t, s + 1, i)
  {
    var j: nat := i - 1;
    assert SpecStep(run[j], log[j].0, log[j].1, run[i]);
    if run[j].calls[t] == run[i].calls[t] {
      s := Started(run, log, t, j, e);
      OneMoreLull(run, log, t, s + 1, j);
    } else {
      s := j;
    }
  }

  // What a call comes to that takes effect when the stack is at a.
  ghost predicate Outcome(start: Event, a: Spec, a': Spec, c: Call) {
    match start
    case StartPush(d) =>
      && c.Pushed?
      && a'.items == if c.ok then [d] + a.items else a.items
    case StartPop =>
      && c == Popped(if a.items == [] then NIL else a.items[0])
      && a'.items == if a.items == [] then [] else a.items[1..]
    case _ => false
  }

  lemma {:induction false} EffectIs(a: Spec, t: nat, e: (nat, Event), a': Spec) returns (start: Event)
    requires SpecStep(a, e.0, e.1, a') && t < |a'.calls| && a'.calls[t] != a.calls[t]
    requires a'.calls[t].Pushed? || a'.calls[t].Popped?
    ensures e == (t, Inside) && (start.StartPush? || start.StartPop?)
    ensures a.calls[t] == if start.StartPush? then Pushing(start.data) else Popping
    ensures Outcome(start, a, a', a'.calls[t])
  {
    start := if a.calls[t].Pushing? then StartPush(a.calls[t].data) else StartPop;
  }

  // One that has: when it was started and when it took effect.
  lemma {:induction false} TookEffect(run: seq<Spec>, log: Log, t: nat, i: nat) returns (s: nat, j: nat)
    requires IsSpecRun(run, log) && AllFree(run[0]) && i < |run|
    requires t < |run[i].calls| && (run[i].calls[t].Pushed? || run[i].calls[t].Popped?)
    ensures s < j < i && Lull(run, log, t, s + 1, j) && Lull(run, log, t, j + 1, i)
    ensures log[s].0 == t && log[j] == (t, Inside)
    ensures Outcome(log[s].1, run[j], run[j + 1], run[i].calls[t])
  {
    var h: nat := i - 1;
    assert SpecStep(run[h], log[h].0, log[h].1, run[i]);
    if run[h].calls[t] == run[i].calls[t] {
      s, j := TookEffect(run, log, t, h);
      OneMoreLull(run, log, t, j + 1, h);
    } else {
      j := h;
      var e := EffectIs(run[j], t, log[j], run[i]);
      s := Started(run, log, t, j, e);
    }
  }
}
