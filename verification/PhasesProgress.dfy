/** A test can always be brought to its end where the barrier fits: whatever has happened,
    some schedule lets the leader join all threads and read all results.  That it does
    end is a matter of the scheduler and of the clock, which the leader sleeps by. */
module PhasesProgress {

  import opened Runs
  import opened Phases

  // Steps to the end of the test when no thread in a loop goes on but to leave it.
  function WorkerLeft(w: Worker): nat {
    match w
    case Absent => 13
    case Arrive(b) => if b <= 2 then 12 - 5 * b else 0
    case At(b, _) => if b <= 2 then 11 - 5 * b else 0
    case Call(k) => if k <= 1 then 10 - 5 * k else 0
    case Loop(k) => if k <= 1 then 9 - 5 * k else 0
    case Leave(k) => if k <= 1 then 8 - 5 * k else 0
    case Exited => 0
  }

  function WorkersLeft(ws: seq<Worker>): nat {
    if ws == [] then 0 else WorkersLeft(ws[..|ws| - 1]) + WorkerLeft(ws[|ws| - 1])
  }

  function LeaderLeft(l: Leader, n: nat): nat {
    match l
    case Reset => 3 * n + 10
    case Create(next) => if next <= n then 3 * n + 9 - next else 0
    case Coming(b) => if b <= 2 then 2 * n + 8 - 3 * b else 0
    case Waits(b, _) => if b <= 2 then 2 * n + 7 - 3 * b else 0
    case Sleep(k) => if k <= 1 then 2 * n + 6 - 3 * k else 0
    case Join(next) => if next <= n then 2 * (n - next) else 0
    case Read(next) => if next < n then 2 * (n - next) - 1 else 0
  }

  function StepsLeft(s: State): nat { LeaderLeft(s.leader, |s.workers|) + WorkersLeft(s.workers) }

  lemma {:induction false} LeftUpdate(ws: seq<Worker>, t: nat, w: Worker)
    requires t < |ws|
    ensures WorkersLeft(ws[t := w]) == WorkersLeft(ws) + WorkerLeft(w) - WorkerLeft(ws[t])
  {
    var last := |ws| - 1;
    if t < last {
      LeftUpdate(ws[..last], t, w);
      assert ws[t := w][..last] == ws[..last][t := w];
    } else {
      assert ws[t := w][..last] == ws[..last];
    }
  }

  // The leader's own steps lead to the end of the test.
  lemma {:induction false} LeaderOnward(s: State)
    requires Inv(s) && LeaderCan(s) && s.leader != Join(|s.workers|)
    ensures LeaderStep(s).tests == s.tests && StepsLeft(LeaderStep(s)) < StepsLeft(s)
  {
    if s.leader.Create? {
      LeaderCreatesOnward(s);
    } else if s.leader.Reset? {
      assert LeaderStep(s).workers == s.workers;
    } else {
      LeaderCloser(s);
      assert LeaderStep(s).workers == s.workers;
    }
  }

  lemma {:induction false} LeaderCreatesOnward(s: State)
    requires Inv(s) && s.leader.Create?
    ensures StepsLeft(LeaderStep(s)) < StepsLeft(s)
  {
    var next := s.leader.next;
    if next < |s.workers| { LeftUpdate(s.workers, next, Arrive(0)); }
  }

  lemma {:induction false} LeaderCloser(s: State)
    requires Inv(s) && LeaderCan(s) && s.leader != Join(|s.workers|) && !s.leader.Create? && !s.leader.Reset?
    ensures LeaderLeft(LeaderStep(s).leader, |s.workers|) < LeaderLeft(s.leader, |s.workers|)
  {
  }

  // A thread that keeps the leader waiting and is not blocked itself.
  ghost predicate Awaited(s: State, t: nat) {
    t < |s.workers| && !LeaderCan(s) && WorkerCan(s, s.workers[t])
  }

  lemma {:induction false} SomeoneAwaited(s: State) returns (t: nat)
    requires Inv(s) && !LeaderCan(s)
    ensures Awaited(s, t)
  {
    if s.leader.Waits? {
      BlockedBounds(s.workers, s.gen);
      t :| t < |s.workers| && !IsBlocked(s.workers[t], s.gen);
    } else {
      t := s.leader.next;
    }
    assert InStep(s.workers[t], Over(s), 3 * s.tests);
  }

  // The leader waits for it at the next meeting, so the flag of its loop is down.
  lemma {:induction false} WorkerCloser(s: State, t: nat)
    requires Inv(s) && Awaited(s, t)
    ensures WorkerLeft(WorkerStep(s, t).workers[t]) < WorkerLeft(s.workers[t])
  {
    assert InStep(s.workers[t], Over(s), 3 * s.tests);
    assert s.workers[t].Loop? ==> !Running(s, s.workers[t].k);
  }

  lemma {:induction false} WorkerOnward(s: State, t: nat)
    requires Inv(s) && Awaited(s, t)
    ensures var s' := WorkerStep(s, t); s'.tests == s.tests && StepsLeft(s') < StepsLeft(s)
  {
    var s' := WorkerStep(s, t);
    LeftUpdate(s.workers, t, s'.workers[t]);
    WorkerCloser(s, t);
    assert s'.workers == s.workers[t := s'.workers[t]] && s'.leader == s.leader && s'.tests == s.tests;
  }

  // The end of a test: all threads joined, and all results read and final.
  ghost predicate Complete(s: State) {
    && s.leader.Reset? && s.seen == s.stats && |s.seen| == |s.workers|
    && forall t :: 0 <= t < |s.seen| ==> s.seen[t].latency.final && s.seen[t].throughput.final
  }

  lemma {:induction false} JoinedIsComplete(s: State)
    requires Inv(s) && s.leader == Join(|s.workers|)
    ensures Complete(LeaderStep(s))
  {
    forall t | 0 <= t < |s.seen| ensures s.seen[t].latency.final && s.seen[t].throughput.final {
      assert StatsOk(s.workers[t], s.stats[t]);
    }
  }

  lemma {:induction false} TestCompletes(init: State, before: seq<Who>, s: State) returns (sched: seq<Who>, s': State)
    requires Inv(s) && Leads(StepOk, init, before, s)
    ensures Leads(StepOk, init, sched, s') && before <= sched
    ensures Inv(s') && s'.tests == s.tests + 1 && Complete(s')
    decreases StepsLeft(s)
  {
    if LeaderCan(s) {
      s' := LeaderStep(s);
      assert StepOk(s, Lead, s');
      Then(StepOk, init, before, s, Lead, s');
      InvStep(s, Lead, s');
      sched := before + [Lead];
      if s.leader == Join(|s.workers|) {
        JoinedIsComplete(s);
      } else {
        LeaderOnward(s);
        sched, s' := TestCompletes(init, sched, s');
      }
    } else {
      var t := SomeoneAwaited(s);
      s' := WorkerStep(s, t);
      WorkerOnward(s, t);
      assert StepOk(s, Thread(t), s');
      Then(StepOk, init, before, s, Thread(t), s');
      InvStep(s, Thread(t), s');
      sched, s' := TestCompletes(init, before + [Thread(t)], s');
    }
  }

  // Every run can be carried on to the end of its test and of as many more as are wanted.
  lemma {:induction false} TestsComplete(n: nat, before: seq<Who>, s: State, more: nat)
      returns (sched: seq<Who>, s': State)
    requires Leads(StepOk, Init(n + 1, n), before, s) && more > 0
    ensures Leads(StepOk, Init(n + 1, n), sched, s') && before <= sched
    ensures s'.tests == s.tests + more && Complete(s')
    decreases more
  {
    if more == 1 {
      var run: seq<State> :| Is(StepOk, run, before) && run[0] == Init(n + 1, n) && run[|before|] == s;
      InvRun(run, before, n, |before|);
      sched, s' := TestCompletes(Init(n + 1, n), before, s);
    } else {
      sched, s' := TestsComplete(n, before, s, more - 1);
      sched, s' := TestsComplete(n, sched, s', 1);
    }
  }
}
