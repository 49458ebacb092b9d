/** The phases of a test: a leader and its threads, a barrier and two flags.

    Each participant meets the others three times.  Between the first and the second
    meeting the threads measure latency, between the second and the third throughput;
    the leader ends either loop by clearing its flag, and reads the results after the
    third.  Then the next test begins with new threads and the same barrier. */
module Phases {

  import opened Runs
  import ThreadStart

  // `b` numbers the meetings of a test; `gen` is the barrier's generation on arrival.
  datatype Worker =
    | Absent
    | Arrive(b: nat)
    | At(b: nat, gen: nat)
    | Loop(k: nat)
    | Call(k: nat)
    | Leave(k: nat)
    | Exited

  datatype Leader =
    | Reset
    | Create(next: nat)
    | Coming(b: nat)
    | Waits(b: nat, gen: nat)
    | Sleep(k: nat)
    | Join(next: nat)
    | Read(next: nat)

  // The two results of a thread; `final` once its loop has been left.
  datatype Stat = Stat(calls: nat, final: bool)
  datatype Stats = Stats(latency: Stat, throughput: Stat)

  datatype State = State(count: nat, arrived: nat, gen: nat, running0: bool, running1: bool,
                         leader: Leader, workers: seq<Worker>, stats: seq<Stats>, seen: seq<Stats>, tests: nat)

  const FRESH := Stats(Stat(0, false), Stat(0, false))

  // ---- Steps ----

  // pthread_barrier_wait up to the point where it blocks: the last to arrive opens
  // the next generation.
  function Meet(s: State): State {
    if s.arrived + 1 == s.count then s.(arrived := 0, gen := s.gen + 1) else s.(arrived := s.arrived + 1)
  }

  function Behind(b: nat): Worker { if b == 0 then Loop(0) else if b == 1 then Loop(1) else Exited }

  predicate Running(s: State, k: nat) { if k == 0 then s.running0 else s.running1 }

  function Counted(st: Stats, k: nat): Stats {
    if k == 0 then st.(latency := st.latency.(calls := st.latency.calls + 1))
    else st.(throughput := st.throughput.(calls := st.throughput.calls + 4))
  }

  function Finished(st: Stats, k: nat): Stats {
    if k == 0 then st.(latency := st.latency.(final := true))
    else st.(throughput := st.throughput.(final := true))
  }

  // A thread blocked at the barrier goes on once the generation has moved.
  predicate WorkerCan(s: State, w: Worker) {
    !w.Absent? && !w.Exited? && (w.At? ==> s.gen > w.gen)
  }

  function WorkerStep(s: State, t: nat): State
    requires t < |s.workers| == |s.stats|
  {
    var w := s.workers[t];
    match w
    case Arrive(b) => Meet(s).(workers := s.workers[t := At(b, s.gen)])
    case At(b, _) => s.(workers := s.workers[t := Behind(b)])
    case Loop(k) => s.(workers := s.workers[t := if Running(s, k) then Call(k) else Leave(k)])
    case Call(k) => s.(workers := s.workers[t := Loop(k)], stats := s.stats[t := Counted(s.stats[t], k)])
    case Leave(k) => s.(workers := s.workers[t := Arrive(k + 1)], stats := s.stats[t := Finished(s.stats[t], k)])
    case _ => s
  }

  predicate LeaderCan(s: State) {
    match s.leader
    case Waits(_, gen) => s.gen > gen
    case Join(next) => next < |s.workers| ==> s.workers[next].Exited?
    case _ => true
  }

  function LeaderStep(s: State): State {
    var n := |s.workers|;
    match s.leader
    case Reset =>
      s.(leader := Create(0), running0 := true, running1 := true, seen := [],
         workers := seq(n, _ => Absent), stats := seq(n, _ => FRESH))
    case Create(next) =>
      if next < n then s.(leader := Create(next + 1), workers := s.workers[next := Arrive(0)])
      else s.(leader := Coming(0))
    case Coming(b) => Meet(s).(leader := Waits(b, s.gen))
    case Waits(b, _) => s.(leader := if b < 2 then Sleep(b) else Join(0))
    case Sleep(k) =>
      if k == 0 then s.(leader := Coming(1), running0 := false) else s.(leader := Coming(2), running1 := false)
    case Join(next) =>
      if next < n then s.(leader := Read(next))
      else s.(leader := Reset, tests := s.tests + 1, workers := seq(n, _ => Absent))
    case Read(next) =>
      s.(leader := Join(next + 1), seen := if next < |s.stats| then s.seen + [s.stats[next]] else s.seen)
  }

  datatype Who = Lead | Thread(t: nat)

  ghost predicate StepOk(s: State, e: Who, s': State) {
    match e
    case Lead => LeaderCan(s) && s' == LeaderStep(s)
    case Thread(t) => t < |s.workers| == |s.stats| && WorkerCan(s, s.workers[t]) && s' == WorkerStep(s, t)
  }

  function Init(count: nat, n: nat): State {
    State(count, 0, 0, false, false, Reset, seq(n, _ => Absent), seq(n, _ => FRESH), [], 0)
  }

  ghost predicate IsRun(run: seq<State>, sched: seq<Who>, count: nat, n: nat) {
    && |run| == |sched| + 1 && run[0] == Init(count, n)
    && forall i :: 0 <= i < |sched| ==> StepOk(run[i], sched[i], run[i + 1])
  }

  // ---- The invariant, for a barrier that fits ----

  // Meetings of this test that are over.
  function Over(s: State): int { s.gen - 3 * s.tests }

  // Where a thread can be when c meetings are over.
  ghost predicate InStep(w: Worker, c: int, base: nat) {
    match w
    case Absent => c == 0
    case Arrive(b) => b == c && b <= 2
    case At(b, gen) => gen == base + b && b <= 2 && (b == c || b + 1 == c)
    case Loop(k) => k <= 1 && k + 1 == c
    case Call(k) => k <= 1 && k + 1 == c
    case Leave(k) => k <= 1 && k + 1 == c
    case Exited => c == 3
  }

  ghost predicate LeaderInStep(l: Leader, c: int, base: nat, n: nat) {
    match l
    case Reset => c == 0
    case Create(next) => c == 0 && next <= n
    case Coming(b) => b == c && b <= 2
    case Waits(b, gen) => gen == base + b && b <= 2 && (b == c || b + 1 == c)
    case Sleep(k) => k <= 1 && k + 1 == c
    case Join(next) => c == 3 && next <= n
    case Read(next) => c == 3 && next < n
  }

  // How many are blocked at the barrier.
  function Blocked(ws: seq<Worker>, gen: nat): nat {
    if ws == [] then 0
    else Blocked(ws[..|ws| - 1], gen) + if ws[|ws| - 1].At? && ws[|ws| - 1].gen == gen then 1 else 0
  }

  function LeaderBlocked(l: Leader, gen: nat): nat { if l.Waits? && l.gen == gen then 1 else 0 }

  // A loop's flag is up until the leader has slept through it.
  ghost predicate FlagsOk(s: State) {
    match s.leader
    case Reset => true
    case Create(_) => s.running0 && s.running1
    case Coming(b) => s.running0 == (b < 1) && s.running1 == (b < 2)
    case Waits(b, _) => s.running0 == (b < 1) && s.running1 == (b < 2)
    case Sleep(k) => s.running0 == (k < 1) && s.running1
    case _ => !s.running0 && !s.running1
  }

  // Which results are final, by where the thread is.
  ghost predicate StatsOk(w: Worker, st: Stats) {
    match w
    case Absent => !st.latency.final && !st.throughput.final
    case Arrive(b) => st.latency.final == (b >= 1) && st.throughput.final == (b >= 2)
    case At(b, _) => st.latency.final == (b >= 1) && st.throughput.final == (b >= 2)
    case Loop(k) => st.latency.final == (k >= 1) && !st.throughput.final
    case Call(k) => st.latency.final == (k >= 1) && !st.throughput.final
    case Leave(k) => st.latency.final == (k >= 1) && !st.throughput.final
    case Exited => st.latency.final && st.throughput.final
  }

  ghost predicate WorkersOk(s: State) {
    && |s.stats| == |s.workers|
    && (forall t :: 0 <= t < |s.workers| ==> InStep(s.workers[t], Over(s), 3 * s.tests))
    && (!s.leader.Reset? ==> forall t :: 0 <= t < |s.workers| ==> StatsOk(s.workers[t], s.stats[t]))
  }

  // Threads exist once created, and those joined have exited.
  ghost predicate ThreadsOk(s: State) {
    match s.leader
    case Reset => forall t :: 0 <= t < |s.workers| ==> s.workers[t].Absent?
    case Create(next) => s.seen == [] && forall t :: 0 <= t < |s.workers| ==> (s.workers[t].Absent? <==> t >= next)
    case Join(next) => next <= |s.workers| && JoinedTo(s, next, next)
    case Read(next) => next < |s.workers| && JoinedTo(s, next, next + 1)
    case _ => s.seen == [] && forall t :: 0 <= t < |s.workers| ==> !s.workers[t].Absent?
  }

  ghost predicate JoinedTo(s: State, read: nat, joined: nat)
    requires read <= joined <= |s.workers|
  {
    && |s.stats| == |s.workers| && s.seen == s.stats[..read]
    && (forall t :: 0 <= t < joined ==> s.workers[t].Exited?)
    && forall t :: 0 <= t < |s.workers| ==> !s.workers[t].Absent?
  }

  ghost predicate BarrierOk(s: State) {
    && 0 <= Over(s) <= 3 && s.count == |s.workers| + 1
    && s.arrived == Blocked(s.workers, s.gen) + LeaderBlocked(s.leader, s.gen) < s.count
  }

  ghost predicate Inv(s: State) {
    && BarrierOk(s) && WorkersOk(s) && ThreadsOk(s) && FlagsOk(s)
    && LeaderInStep(s.leader, Over(s), 3 * s.tests, |s.workers|)
  }

  // ---- Counting the blocked ----

  predicate IsBlocked(w: Worker, gen: nat) { w.At? && w.gen == gen }

  lemma {:induction false} BlockedUpdate(ws: seq<Worker>, t: nat, w: Worker, gen: nat)
    requires t < |ws|
    ensures Blocked(ws[t := w], gen) ==
            Blocked(ws, gen) + (if IsBlocked(w, gen) then 1 else 0) - if IsBlocked(ws[t], gen) then 1 else 0
  {
    var last := |ws| - 1;
    if t < last {
      BlockedUpdate(ws[..last], t, w, gen);
      assert ws[t := w][..last] == ws[..last][t := w];
    } else {
      assert ws[t := w][..last] == ws[..last];
    }
  }

  lemma {:induction false} BlockedBounds(ws: seq<Worker>, gen: nat)
    ensures Blocked(ws, gen) <= |ws|
    ensures Blocked(ws, gen) == |ws| <==> forall t :: 0 <= t < |ws| ==> IsBlocked(ws[t], gen)
    ensures Blocked(ws, gen) == 0 <==> forall t :: 0 <= t < |ws| ==> !IsBlocked(ws[t], gen)
  {
    if ws != [] {
      var last := |ws| - 1;
      BlockedBounds(ws[..last], gen);
      assert forall t :: 0 <= t < last ==> ws[..last][t] == ws[t];
    }
  }

  // ---- The invariant is kept ----

  // Everybody blocked in generation gen: the barrier has just full the next.
  lemma {:induction false} BarrierOpens(s: State)
    requires s.leader.Waits? && s.leader.b <= 2 && s.leader.gen == s.gen - 1
    requires s.count == |s.workers| + 1 && s.arrived == 0 && s.gen == 3 * s.tests + s.leader.b + 1
    requires forall t :: 0 <= t < |s.workers| ==> s.workers[t] == At(s.leader.b, s.gen - 1)
    ensures BarrierOk(s) && LeaderInStep(s.leader, Over(s), 3 * s.tests, |s.workers|)
    ensures forall t :: 0 <= t < |s.workers| ==> InStep(s.workers[t], Over(s), 3 * s.tests)
  {
    BlockedBounds(s.workers, s.gen);
  }

  lemma {:induction false} WorkerComes(s: State, t: nat)
    requires Inv(s) && t < |s.workers| && s.workers[t].Arrive? && s.arrived + 1 < s.count
    ensures Inv(WorkerStep(s, t))
  {
    var s' := WorkerStep(s, t);
    BlockedUpdate(s.workers, t, s'.workers[t], s.gen);
    assert InStep(s.workers[t], Over(s), 3 * s.tests);
    WorkerThreads(s, t, s');
    WorkerStats(s, t, s');
  }

  lemma {:induction false} LastWorkerComes(s: State, t: nat)
    requires Inv(s) && t < |s.workers| && s.workers[t].Arrive? && s.arrived + 1 == s.count
    ensures Inv(WorkerStep(s, t))
  {
    var s' := WorkerStep(s, t);
    AllCame(s, t);
    BarrierOpens(s');
    WorkerThreads(s, t, s');
    WorkerStats(s, t, s');
  }

  lemma {:induction false} AllCame(s: State, t: nat)
    requires Inv(s) && t < |s.workers| && s.workers[t].Arrive? && s.arrived + 1 == s.count
    ensures LeaderBlocked(s.leader, s.gen) == 1 && s.leader.b == Over(s)
    ensures forall u :: 0 <= u < |s.workers| ==> WorkerStep(s, t).workers[u] == At(Over(s), s.gen)
  {
    var ws := WorkerStep(s, t).workers;
    assert InStep(s.workers[t], Over(s), 3 * s.tests);
    BlockedUpdate(s.workers, t, ws[t], s.gen);
    BlockedBounds(ws, s.gen);
    forall u | 0 <= u < |s.workers| ensures ws[u] == At(Over(s), s.gen) {
      assert IsBlocked(ws[u], s.gen);
      assert u != t ==> InStep(s.workers[u], Over(s), 3 * s.tests);
    }
  }

  // What a thread's own step cannot disturb.
  lemma {:induction false} WorkerThreads(s: State, t: nat, s': State)
    requires Inv(s) && t < |s.workers| && WorkerCan(s, s.workers[t]) && s' == WorkerStep(s, t)
    ensures |s'.stats| == |s'.workers| && ThreadsOk(s') && FlagsOk(s')
  {
    assert InStep(s.workers[t], Over(s), 3 * s.tests);
  }

  lemma {:induction false} WorkerStats(s: State, t: nat, s': State)
    requires Inv(s) && t < |s.workers| && WorkerCan(s, s.workers[t]) && s' == WorkerStep(s, t)
    ensures |s'.stats| == |s'.workers|
    ensures !s'.leader.Reset? ==> forall u :: 0 <= u < |s'.workers| ==> StatsOk(s'.workers[u], s'.stats[u])
  {
    assert InStep(s.workers[t], Over(s), 3 * s.tests);
    assert !s.leader.Reset? ==> StatsOk(s.workers[t], s.stats[t]);
  }

  lemma {:induction false} WorkerBlocks(s: State, t: nat)
    requires Inv(s) && t < |s.workers| && WorkerCan(s, s.workers[t]) && !s.workers[t].Arrive?
    ensures BarrierOk(WorkerStep(s, t)) && Over(WorkerStep(s, t)) == Over(s)
  {
    BlockedUpdate(s.workers, t, WorkerStep(s, t).workers[t], s.gen);
    assert InStep(s.workers[t], Over(s), 3 * s.tests);
  }

  lemma {:induction false} WorkerMoves(s: State, t: nat)
    requires Inv(s) && t < |s.workers| && WorkerCan(s, s.workers[t]) && !s.workers[t].Arrive?
    ensures Inv(WorkerStep(s, t))
  {
    var s' := WorkerStep(s, t);
    WorkerBlocks(s, t);
    WorkerThreads(s, t, s');
    WorkerStats(s, t, s');
    assert InStep(s.workers[t], Over(s), 3 * s.tests);
  }

  lemma {:induction false} LeaderArrives(s: State)
    requires Inv(s) && s.leader.Coming?
    ensures Inv(LeaderStep(s))
  {
    var s' := LeaderStep(s);
    BlockedBounds(s.workers, s.gen);
    if s.arrived + 1 == s.count {
      forall u | 0 <= u < |s.workers| ensures s'.workers[u] == At(Over(s), s.gen) {
        assert InStep(s.workers[u], Over(s), 3 * s.tests);
      }
      BarrierOpens(s');
    }
  }

  lemma {:induction false} LeaderMoves(s: State)
    requires Inv(s) && LeaderCan(s) && (s.leader.Waits? || s.leader.Sleep?)
    ensures Inv(LeaderStep(s))
  {
  }

  lemma {:induction false} LeaderReads(s: State)
    requires Inv(s) && s.leader.Read?
    ensures Inv(LeaderStep(s))
  {
    var next := s.leader.next;
    assert s.stats[..next + 1] == s.stats[..next] + [s.stats[next]];
  }

  lemma {:induction false} LeaderCreates(s: State)
    requires Inv(s) && s.leader.Create?
    ensures Inv(LeaderStep(s))
  {
    var next := s.leader.next;
    if next < |s.workers| { BlockedUpdate(s.workers, next, Arrive(0), s.gen); }
  }

  lemma {:induction false} LeaderResets(s: State)
    requires Inv(s) && s.leader.Reset?
    ensures Inv(LeaderStep(s))
  {
    BlockedBounds(s.workers, s.gen);
    BlockedBounds(LeaderStep(s).workers, s.gen);
  }

  lemma {:induction false} LeaderJoins(s: State)
    requires Inv(s) && LeaderCan(s) && s.leader.Join?
    ensures Inv(LeaderStep(s))
  {
    BlockedBounds(s.workers, s.gen);
    if s.leader.next == |s.workers| { BlockedBounds(LeaderStep(s).workers, s.gen); }
  }

  lemma {:induction false} InvStep(s: State, e: Who, s': State)
    requires Inv(s) && StepOk(s, e, s')
    ensures Inv(s')
  {
    if e.Thread? {
      if !s.workers[e.t].Arrive? {
        WorkerMoves(s, e.t);
      } else if s.arrived + 1 < s.count {
        WorkerComes(s, e.t);
      } else {
        LastWorkerComes(s, e.t);
      }
    } else if s.leader.Coming? {
      LeaderArrives(s);
    } else if s.leader.Create? {
      LeaderCreates(s);
    } else if s.leader.Reset? {
      LeaderResets(s);
    } else if s.leader.Join? {
      LeaderJoins(s);
    } else if s.leader.Read? {
      LeaderReads(s);
    } else {
      LeaderMoves(s);
    }
  }

  lemma {:induction false} InitOk(n: nat)
    ensures Inv(Init(n + 1, n))
  {
    BlockedBounds(Init(n + 1, n).workers, 0);
  }

  lemma {:induction false} InvRun(run: seq<State>, sched: seq<Who>, n: nat, i: nat)
    requires IsRun(run, sched, n + 1, n) && i < |run|
    ensures Inv(run[i])
  {
    if i == 0 {
      InitOk(n);
    } else {
      InvRun(run, sched, n, i - 1);
      assert StepOk(run[i - 1], sched[i - 1], run[i]);
      InvStep(run[i - 1], sched[i - 1], run[i]);
    }
  }

  // ---- What follows ----

  predicate InLatencyLoop(w: Worker) { (w.Loop? || w.Call?) && w.k == 0 }

  predicate InThroughputLoop(w: Worker) { (w.Loop? || w.Call?) && w.k == 1 }

  // No thread measures throughput while another still measures latency.
  lemma {:induction false} LoopsNeverOverlap(run: seq<State>, sched: seq<Who>, n: nat, i: nat, t: nat, u: nat)
    requires IsRun(run, sched, n + 1, n) && i < |run| && t < |run[i].workers| && u < |run[i].workers|
    ensures !(InLatencyLoop(run[i].workers[t]) && InThroughputLoop(run[i].workers[u]))
  {
    InvRun(run, sched, n, i);
    assert InStep(run[i].workers[t], Over(run[i]), 3 * run[i].tests);
    assert InStep(run[i].workers[u], Over(run[i]), 3 * run[i].tests);
  }

  // How many meetings of the current test a participant has come back from, and how
  // many it has come to.
  function Back(w: Worker): nat {
    match w
    case Absent => 0
    case Arrive(b) => b
    case At(b, _) => b
    case Loop(k) => k + 1
    case Call(k) => k + 1
    case Leave(k) => k + 1
    case Exited => 3
  }

  function Come(w: Worker): nat { if w.At? then w.b + 1 else Back(w) }

  function LeaderBack(l: Leader): nat {
    match l
    case Reset => 0
    case Create(_) => 0
    case Coming(b) => b
    case Waits(b, _) => b
    case Sleep(k) => k + 1
    case Join(_) => 3
    case Read(_) => 3
  }

  function LeaderCome(l: Leader): nat { if l.Waits? then l.b + 1 else LeaderBack(l) }

  // Nobody comes back from a meeting before everybody has come to it, so participants
  // are never more than one meeting apart.
  ghost predicate Together(s: State) {
    && (forall t, u :: 0 <= t < |s.workers| && 0 <= u < |s.workers| ==> Back(s.workers[t]) <= Come(s.workers[u]))
    && (forall t :: 0 <= t < |s.workers| ==> Back(s.workers[t]) <= LeaderCome(s.leader))
    && forall t :: 0 <= t < |s.workers| ==> LeaderBack(s.leader) <= Come(s.workers[t])
  }

  lemma {:induction false} AllTogether(run: seq<State>, sched: seq<Who>, n: nat, i: nat)
    requires IsRun(run, sched, n + 1, n) && i < |run|
    ensures Together(run[i])
    ensures forall t, u :: 0 <= t < |run[i].workers| && 0 <= u < |run[i].workers| ==>
                             Back(run[i].workers[t]) <= Back(run[i].workers[u]) + 1
  {
    InvRun(run, sched, n, i);
    InvTogether(run[i]);
  }

  lemma {:induction false} InvTogether(s: State)
    requires Inv(s)
    ensures Together(s)
  {
    var c := Over(s);
    forall t | 0 <= t < |s.workers| ensures Back(s.workers[t]) <= c <= Come(s.workers[t]) {
      assert InStep(s.workers[t], c, 3 * s.tests);
    }
  }

  // The leader reads each result once it is final, and from its first join to the end
  // of the test nothing changes any result.
  lemma {:induction false} LeaderReadsFinal(run: seq<State>, sched: seq<Who>, n: nat, i: nat)
    requires IsRun(run, sched, n + 1, n) && i < |run| && (run[i].leader.Join? || run[i].leader.Read?)
    ensures |run[i].stats| == |run[i].workers|
    ensures forall t :: 0 <= t < |run[i].stats| ==> run[i].stats[t].latency.final && run[i].stats[t].throughput.final
    ensures run[i].leader.next <= |run[i].stats| && run[i].seen == run[i].stats[..run[i].leader.next]
    ensures i < |sched| ==> run[i + 1].stats == run[i].stats
  {
    var s := run[i];
    InvRun(run, sched, n, i);
    forall t | 0 <= t < |s.workers| ensures StatsOk(s.workers[t], s.stats[t]) && Back(s.workers[t]) >= 2 {
      assert InStep(s.workers[t], Over(s), 3 * s.tests);
    }
    if i < |sched| { assert StepOk(s, sched[i], run[i + 1]); }
  }

  // ---- What the results are worth, whatever the barrier is made for ----

  // The step begins a test, with fresh results.
  predicate Begins(s: State, e: Who) { e.Lead? && s.leader.Reset? }

  // Thread t returns from a call of loop k.
  predicate EndsCall(s: State, e: Who, t: nat, k: nat) {
    e == Thread(t) && t < |s.workers| && s.workers[t] == Call(k)
  }

  // How many calls of loop k thread t has ended since the test began.
  function Turns(run: seq<State>, sched: seq<Who>, i: nat, t: nat, k: nat): nat
    requires i < |run| && i <= |sched|
  {
    if i == 0 || Begins(run[i - 1], sched[i - 1]) then 0
    else Turns(run, sched, i - 1, t, k) + if EndsCall(run[i - 1], sched[i - 1], t, k) then 1 else 0
  }

  predicate Placed(w: Worker) {
    match w
    case Arrive(b) => b <= 2
    case At(b, _) => b <= 2
    case Loop(k) => k <= 1
    case Call(k) => k <= 1
    case Leave(k) => k <= 1
    case _ => true
  }

  // The thread is out of loop k.
  predicate Left(w: Worker, k: nat) {
    match w
    case Absent => false
    case Arrive(b) => b > k
    case At(b, _) => b > k
    case Loop(j) => j > k
    case Call(j) => j > k
    case Leave(j) => j >= k
    case Exited => true
  }

  // What holds of a thread whatever the barrier does.
  ghost predicate AnyhowOk(s: State, t: nat) {
    && t < |s.workers| == |s.stats| && Placed(s.workers[t])
    && (s.leader.Reset? ==> s.workers[t].Absent?)
    && (Left(s.workers[t], 0) ==> !s.running0) && (Left(s.workers[t], 1) ==> !s.running1)
  }

  lemma {:induction false} AnyhowStep(s: State, e: Who, s': State, t: nat)
    requires AnyhowOk(s, t) && StepOk(s, e, s')
    ensures AnyhowOk(s', t) && |s'.workers| == |s.workers|
  {
    if e.Lead? { AnyhowLead(s, t); } else { AnyhowThread(s, e.t, t); }
  }

  lemma {:induction false} AnyhowLead(s: State, t: nat)
    requires AnyhowOk(s, t)
    ensures AnyhowOk(LeaderStep(s), t) && |LeaderStep(s).workers| == |s.workers|
  {
  }

  lemma {:induction false} AnyhowThread(s: State, u: nat, t: nat)
    requires AnyhowOk(s, t) && u < |s.workers| && WorkerCan(s, s.workers[u])
    ensures AnyhowOk(WorkerStep(s, u), t) && |WorkerStep(s, u).workers| == |s.workers|
  {
  }

  lemma {:induction false} AnyhowRun(run: seq<State>, sched: seq<Who>, count: nat, n: nat, i: nat, t: nat)
    requires IsRun(run, sched, count, n) && i < |run| && t < n
    ensures AnyhowOk(run[i], t) && |run[i].workers| == n
  {
    if i > 0 {
      AnyhowRun(run, sched, count, n, i - 1, t);
      AnyhowStep(run[i - 1], sched[i - 1], run[i], t);
    }
  }

  lemma {:induction false} StepCounts(s: State, e: Who, s': State, t: nat)
    requires StepOk(s, e, s') && AnyhowOk(s, t) && |s'.stats| == |s.stats|
    ensures Begins(s, e) ==> s'.stats[t].latency.calls == s'.stats[t].throughput.calls == 0
    ensures !Begins(s, e) ==>
              && s'.stats[t].latency.calls == s.stats[t].latency.calls + (if EndsCall(s, e, t, 0) then 1 else 0)
              && s'.stats[t].throughput.calls ==
                 s.stats[t].throughput.calls + (if EndsCall(s, e, t, 1) then 4 else 0)
  {
  }

  // A thread's results count its own calls of this test: one for each turn of the latency
  // loop, and four for each turn of the throughput loop, which makes four calls.
  lemma {:induction false} CallsAreCounted(run: seq<State>, sched: seq<Who>, count: nat, n: nat, i: nat, t: nat)
    requires IsRun(run, sched, count, n) && i < |run| && t < n
    ensures |run[i].stats| == |run[i].workers| == n
    ensures run[i].stats[t].latency.calls == Turns(run, sched, i, t, 0)
    ensures run[i].stats[t].throughput.calls == 4 * Turns(run, sched, i, t, 1)
  {
    AnyhowRun(run, sched, count, n, i, t);
    if i > 0 {
      CallsAreCounted(run, sched, count, n, i - 1, t);
      AnyhowRun(run, sched, count, n, i - 1, t);
      assert StepOk(run[i - 1], sched[i - 1], run[i]);
      StepCounts(run[i - 1], sched[i - 1], run[i], t);
    }
  }

  lemma {:induction false} ThreadCount(run: seq<State>, sched: seq<Who>, count: nat, n: nat, i: nat)
    requires IsRun(run, sched, count, n) && i < |run|
    ensures |run[i].workers| == n
  {
    if i > 0 {
      ThreadCount(run, sched, count, n, i - 1);
      assert StepOk(run[i - 1], sched[i - 1], run[i]);
    }
  }

  // So do the results that the leader has read.
  lemma {:induction false} LeaderReadsCounts(run: seq<State>, sched: seq<Who>, n: nat, i: nat, t: nat)
    requires IsRun(run, sched, n + 1, n) && i < |run| && (run[i].leader.Join? || run[i].leader.Read?)
    requires t < run[i].leader.next
    ensures t < |run[i].seen| <= n
    ensures run[i].seen[t].latency.calls == Turns(run, sched, i, t, 0)
    ensures run[i].seen[t].throughput.calls == 4 * Turns(run, sched, i, t, 1)
  {
    LeaderReadsFinal(run, sched, n, i);
    ThreadCount(run, sched, n + 1, n, i);
    InvRun(run, sched, n, i);
    CallsAreCounted(run, sched, n + 1, n, i, t);
  }

  // Nobody leaves a loop before the leader has ended it.
  lemma {:induction false} NobodyLeavesEarly(run: seq<State>, sched: seq<Who>, count: nat, n: nat, i: nat, t: nat,
                                               k: nat)
    requires IsRun(run, sched, count, n) && i < |run| && t < n && k <= 1
    ensures t < |run[i].workers| && (Left(run[i].workers[t], k) ==> !Running(run[i], k))
  {
    AnyhowRun(run, sched, count, n, i, t);
  }

  // ---- Nobody is stuck ----

  // Someone can always go on: the barrier never blocks everybody.
  lemma {:induction false} NeverStuck(run: seq<State>, sched: seq<Who>, n: nat, i: nat)
    requires IsRun(run, sched, n + 1, n) && i < |run|
    ensures LeaderCan(run[i]) || exists t :: 0 <= t < |run[i].workers| && WorkerCan(run[i], run[i].workers[t])
  {
    var s := run[i];
    InvRun(run, sched, n, i);
    if s.leader.Waits? && !LeaderCan(s) {
      BlockedBounds(s.workers, s.gen);
      assert Blocked(s.workers, s.gen) < |s.workers|;
      var t :| 0 <= t < |s.workers| && !IsBlocked(s.workers[t], s.gen);
      assert InStep(s.workers[t], Over(s), 3 * s.tests);
      assert WorkerCan(s, s.workers[t]);
    } else if s.leader.Join? && !LeaderCan(s) {
      var t := s.leader.next;
      assert InStep(s.workers[t], Over(s), 3 * s.tests);
      assert WorkerCan(s, s.workers[t]);
    }
  }

  // ---- A barrier made for too few ----

  function Started(count: nat, n: nat, next: nat): State
    requires next <= n
  {
    Init(count, n).(leader := Create(next), running0 := true, running1 := true,
                    workers := seq(n, t requires 0 <= t < n => if t < next then Arrive(0) else Absent))
  }

  lemma {:induction false} StartedReached(count: nat, n: nat, next: nat)
    requires next <= n
    ensures exists sched :: Leads(StepOk, Init(count, n), sched, Started(count, n, next))
  {
    if next == 0 {
      Stay(StepOk, Init(count, n));
      assert Started(count, n, 0).workers == seq(n, _ => Absent);
      assert StepOk(Init(count, n), Lead, Started(count, n, 0));
      Then(StepOk, Init(count, n), [], Init(count, n), Lead, Started(count, n, 0));
    } else {
      StartedReached(count, n, next - 1);
      var sched :| Leads(StepOk, Init(count, n), sched, Started(count, n, next - 1));
      var s, s' := Started(count, n, next - 1), Started(count, n, next);
      assert s.workers[next - 1 := Arrive(0)] == s'.workers;
      assert StepOk(s, Lead, s');
      Then(StepOk, Init(count, n), sched, s, Lead, s');
    }
  }

  // All started, the leader about to go to the barrier, k threads blocked in it.
  function Gathered(count: nat, n: nat, k: nat): State
    requires k <= n
  {
    Started(count, n, n).(leader := Coming(0), arrived := k,
                          workers := seq(n, t requires 0 <= t < n => if t < k then At(0, 0) else Arrive(0)))
  }

  lemma {:induction false} GatheredReached(count: nat, n: nat, k: nat)
    requires k < count && k <= n
    ensures exists sched :: Leads(StepOk, Init(count, n), sched, Gathered(count, n, k))
  {
    if k == 0 {
      StartedReached(count, n, n);
      var sched :| Leads(StepOk, Init(count, n), sched, Started(count, n, n));
      var s, s' := Started(count, n, n), Gathered(count, n, 0);
      assert s.workers == s'.workers;
      assert StepOk(s, Lead, s');
      Then(StepOk, Init(count, n), sched, s, Lead, s');
    } else {
      GatheredReached(count, n, k - 1);
      var sched :| Leads(StepOk, Init(count, n), sched, Gathered(count, n, k - 1));
      var s, s' := Gathered(count, n, k - 1), Gathered(count, n, k);
      assert s.workers[k - 1 := At(0, 0)] == s'.workers;
      assert StepOk(s, Thread(k - 1), s');
      Then(StepOk, Init(count, n), sched, s, Thread(k - 1), s');
    }
  }

  // With fewer places than participants a thread starts to measure while the leader,
  // for one, has yet to come to the barrier.
  lemma {:induction false} TooFewPlaces(count: nat, n: nat) returns (sched: seq<Who>, s: State)
    requires 1 <= count <= n
    ensures Leads(StepOk, Init(count, n), sched, s) && !Together(s)
  {
    GatheredReached(count, n, count - 1);
    sched :| Leads(StepOk, Init(count, n), sched, Gathered(count, n, count - 1));
    var g := Gathered(count, n, count - 1);
    var full := WorkerStep(g, count - 1);
    assert StepOk(g, Thread(count - 1), full);
    Then(StepOk, Init(count, n), sched, g, Thread(count - 1), full);
    s := WorkerStep(full, count - 1);
    assert StepOk(full, Thread(count - 1), s);
    Then(StepOk, Init(count, n), sched + [Thread(count - 1)], full, Thread(count - 1), s);
    sched := sched + [Thread(count - 1)] + [Thread(count - 1)];
    assert Back(s.workers[count - 1]) == 1 && LeaderCome(s.leader) == 0;
  }

  ghost predicate AlwaysTogether(count: nat, n: nat) {
    forall sched, s :: Leads(StepOk, Init(count, n), sched, s) ==> Together(s)
  }

  // A barrier for at most as many as take part keeps the phases apart if and only if it
  // is made for all of them.
  lemma {:induction false} TogetherIff(count: nat, n: nat)
    requires 1 <= count <= n + 1
    ensures AlwaysTogether(count, n) <==> count == n + 1
  {
    if count == n + 1 {
      forall sched, s | Leads(StepOk, Init(count, n), sched, s) ensures Together(s) {
        var run: seq<State> :| Is(StepOk, run, sched) && run[0] == Init(count, n) && run[|sched|] == s;
        AllTogether(run, sched, n, |sched|);
      }
    } else {
      var sched, s := TooFewPlaces(count, n);
    }
  }

  // For the groups of a command line, some CPU of which is available: the phases are kept
  // apart in every run if and only if no CPU is in two groups and every CPU is available.
  lemma {:induction false} PhasesKeptIff(groups: seq<ThreadStart.Mask>, avail: set<nat>)
    requires ThreadStart.Union(groups) * avail != {}
    ensures AlwaysTogether(|ThreadStart.Union(groups) * avail| + 1, ThreadStart.Sizes(groups)) <==>
            ThreadStart.Disjoint(groups) && ThreadStart.Within(groups, avail)
  {
    ThreadStart.BarrierFitsIff(groups, avail);
    TogetherIff(|ThreadStart.Union(groups) * avail| + 1, ThreadStart.Sizes(groups));
  }
}
