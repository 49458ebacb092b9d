/** The compare-exchange spin lock around an increment: subr_cmpxchg_spin.

    The weak exchange of 0 for 1 may fail spuriously; a thread that fails reads the
    word until it is 0 and tries again.  Any number of threads. */
module CmpxchgLock {
  import opened Words
  import opened AtomicCounter

  datatype Thread = Idle | Try | Spin | Locked | Loaded(val: nat) | Stored | Done

  datatype State = State(lock: int, cnt: nat, threads: seq<Thread>)

  datatype Action = CallSpin | Run(spurious: bool) | Return

  ghost predicate Enabled(s: State, t: nat, a: Action) {
    t < |s.threads|
    && match a
       case CallSpin => s.threads[t].Idle?
       case Return => s.threads[t].Done?
       case Run(_) => !s.threads[t].Idle? && !s.threads[t].Done?
  }

  function Goto(s: State, t: nat, pc: Thread): State
    requires t < |s.threads|
  {
    s.(threads := s.threads[t := pc])
  }

  function Next(s: State, t: nat, a: Action): State
    requires t < |s.threads|
  {
    match a
    case CallSpin => Goto(s, t, Try)
    case Return => Goto(s, t, Idle)
    case Run(spurious) =>
      match s.threads[t]
      case Try => if s.lock == 0 && !spurious then Goto(s, t, Locked).(lock := 1) else Goto(s, t, Spin)
      case Spin => Goto(s, t, if s.lock != 0 then Spin else Try)
      case Locked => Goto(s, t, Loaded(s.cnt))
      case Loaded(v) => Goto(s, t, Stored).(cnt := Bump(v))
      case Stored => Goto(s, t, Done).(lock := 0)
      case _ => s
  }

  ghost predicate StepOk(s: State, e: (nat, Action), s': State) {
    Enabled(s, e.0, e.1) && s' == Next(s, e.0, e.1)
  }

  type Schedule = seq<(nat, Action)>

  ghost predicate IsRun(run: seq<State>, sched: Schedule) {
    |run| == |sched| + 1 && forall i :: 0 <= i < |sched| ==> StepOk(run[i], sched[i], run[i + 1])
  }

  function Init(n: nat, cnt: nat): State {
    State(0, cnt, seq(n, _ => Idle))
  }

  predicate Holds(th: Thread) { th.Locked? || th.Loaded? || th.Stored? }

  ghost predicate Exclusive(s: State) {
    forall t: nat, u: nat :: t < |s.threads| && u < |s.threads| && Holds(s.threads[t]) && Holds(s.threads[u]) ==> t == u
  }

  // The word is 1 exactly while one thread holds the lock, and 0 otherwise.
  ghost predicate Inv(s: State) {
    && (s.lock == 0 || s.lock == 1)
    && (s.lock == 1 <==> exists t: nat :: t < |s.threads| && Holds(s.threads[t]))
    && Exclusive(s)
    && (forall t: nat :: t < |s.threads| && s.threads[t].Loaded? ==> s.threads[t].val == s.cnt)
  }

  lemma {:induction false} InvStep(s: State, t: nat, a: Action)
    requires Inv(s) && Enabled(s, t, a)
    ensures Inv(Next(s, t, a))
  {
    var s' := Next(s, t, a);
    forall u: nat | u < |s.threads| && u != t ensures s'.threads[u] == s.threads[u] {}
    if Holds(s.threads[t]) && !Holds(s'.threads[t]) {
      assert forall u: nat :: u < |s.threads| && Holds(s.threads[u]) ==> u == t;
    } else if exists u: nat :: u < |s.threads| && Holds(s.threads[u]) {
      var u: nat :| u < |s.threads| && Holds(s.threads[u]);
      assert Holds(s'.threads[u]);
    } else {
      assert s'.lock == 1 ==> Holds(s'.threads[t]);
    }
  }

  lemma {:induction false} InvRun(run: seq<State>, sched: Schedule, n: nat, cnt: nat, i: nat)
    requires IsRun(run, sched) && run[0] == Init(n, cnt) && i < |run|
    ensures Inv(run[i])
  {
    if i > 0 {
      InvRun(run, sched, n, cnt, i - 1);
      assert StepOk(run[i - 1], sched[i - 1], run[i]);
      InvStep(run[i - 1], sched[i - 1].0, sched[i - 1].1);
    }
  }

  // ---- lock+inc+unlock is one atomic increment ----

  function CallOf(th: Thread): Call {
    match th
    case Idle => Free
    case Stored => Counted
    case Done => Counted
    case _ => Called
  }

  function Abs(s: State): Counter {
    Counter(s.cnt, seq(|s.threads|, t requires 0 <= t < |s.threads| => CallOf(s.threads[t])))
  }

  function EventOf(a: Action): Event {
    match a case CallSpin => Start case Return => End case Run(_) => Inside
  }

  function Events(sched: Schedule): seq<(nat, Event)> {
    seq(|sched|, i requires 0 <= i < |sched| => (sched[i].0, EventOf(sched[i].1)))
  }

  function AbsRun(run: seq<State>): seq<Counter> {
    seq(|run|, i requires 0 <= i < |run| => Abs(run[i]))
  }

  lemma {:induction false} StepRefines(s: State, t: nat, a: Action)
    requires Inv(s) && Enabled(s, t, a)
    ensures CounterStep(Abs(s), t, EventOf(a), Abs(Next(s, t, a)))
  {
    assert Abs(Next(s, t, a)).calls == Abs(s).calls[t := CallOf(Next(s, t, a).threads[t])];
  }

  lemma {:induction false} RunIsCounterRun(run: seq<State>, sched: Schedule, n: nat, cnt: nat)
    requires IsRun(run, sched) && run[0] == Init(n, cnt)
    ensures IsCounterRun(AbsRun(run), Events(sched))
  {
    forall k | 0 <= k < |sched|
      ensures CounterStep(AbsRun(run)[k], Events(sched)[k].0, Events(sched)[k].1, AbsRun(run)[k + 1])
    {
      InvRun(run, sched, n, cnt, k);
      assert StepOk(run[k], sched[k], run[k + 1]);
      StepRefines(run[k], sched[k].0, sched[k].1);
    }
  }

  // In every run, whatever exchanges fail spuriously: one holder at most, and the
  // counter has grown by one for every call completed.
  lemma {:induction false} RunRefines(run: seq<State>, sched: Schedule, n: nat, cnt: nat, i: nat)
    requires IsRun(run, sched) && run[0] == Init(n, cnt) && i < |run|
    ensures Exclusive(run[i])
    ensures IsCounterRun(AbsRun(run), Events(sched))
    ensures run[i].cnt == Plus(cnt, Completed(Events(sched)[..i]) + Returning(Abs(run[i]).calls))
  {
    InvRun(run, sched, n, cnt, i);
    RunIsCounterRun(run, sched, n, cnt);
    CountIsExact(AbsRun(run), Events(sched), i);
  }

  // A thread that finds the word 0 gets in with its next exchange, unless that
  // fails for no reason.
  lemma {:induction false} FreeLockCanBeTaken(s: State, t: nat)
    requires Inv(s) && t < |s.threads| && s.threads[t].Spin?
    requires forall u: nat :: u < |s.threads| ==> !Holds(s.threads[u])
    ensures Next(s, t, Run(false)).threads[t].Try?
    ensures var s' := Next(s, t, Run(false)); Next(s', t, Run(false)).threads[t].Locked?
  {
  }

  // The lock word and the counter in memory; each method is one access.
  class CmpxchgSpin {
    var lock: int
    var cnt: nat
    const threads: array<Thread>

    ghost function Now(): State
      reads this, threads
    {
      State(lock, cnt, threads[..])
    }

    ghost predicate At(t: nat)
      reads this, threads
    {
      Inv(Now()) && t < threads.Length
    }

    constructor (n: nat, cnt: nat)
      ensures Inv(Now()) && Now() == Init(n, cnt) && fresh(threads)
    {
      threads := new Thread[n](_ => Idle);
      lock, this.cnt := 0, cnt;
      new;
      assert threads[..] == Init(n, cnt).threads;
    }

    method CompareExchange(t: nat, spurious: bool) returns (ok: bool)
      requires At(t) && threads[t].Try?
      modifies this`lock, threads
      ensures At(t) && Now() == Next(old(Now()), t, Run(spurious))
      ensures ok <==> !spurious && forall u: nat :: u < threads.Length ==> !Holds(old(threads[..])[u])
    {
      InvStep(Now(), t, Run(spurious));
      ok := lock == 0 && !spurious;
      if ok { lock := 1; }
      threads[t] := if ok then Locked else Spin;
      assert Now() == Next(old(Now()), t, Run(spurious));
    }

    method Look(t: nat)
      requires At(t) && threads[t].Spin?
      modifies threads
      ensures At(t) && Now() == Next(old(Now()), t, Run(false))
    {
      InvStep(Now(), t, Run(false));
      if lock == 0 { threads[t] := Try; }
      assert Now() == Next(old(Now()), t, Run(false));
    }

    method LoadCnt(t: nat)
      requires At(t) && threads[t].Locked?
      modifies threads
      ensures At(t) && Now() == Next(old(Now()), t, Run(false))
    {
      InvStep(Now(), t, Run(false));
      threads[t] := Loaded(cnt);
      assert Now() == Next(old(Now()), t, Run(false));
    }

    method StoreCnt(t: nat)
      requires At(t) && threads[t].Loaded?
      modifies this`cnt, threads
      ensures At(t) && Now() == Next(old(Now()), t, Run(false)) && cnt == Bump(old(cnt))
    {
      InvStep(Now(), t, Run(false));
      cnt := Bump(threads[t].val);
      threads[t] := Stored;
      assert Now() == Next(old(Now()), t, Run(false));
    }

    method Unlock(t: nat)
      requires At(t) && threads[t].Stored?
      modifies this`lock, threads
      ensures At(t) && Now() == Next(old(Now()), t, Run(false))
      ensures forall u: nat :: u < threads.Length ==> !Holds(threads[u])
    {
      InvStep(Now(), t, Run(false));
      lock := 0;
      threads[t] := Done;
      assert Now() == Next(old(Now()), t, Run(false));
    }
  }
}
