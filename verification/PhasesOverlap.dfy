/** What a barrier made for too few allows: threads in both loops, and calls in both, at
    once.  To be in a loop is to stand at its test or in its call; by then the flag may
    be down.  Only calls that overlap disturb what is measured. */
module PhasesOverlap {

  import opened Runs
  import opened Phases
  import ThreadStart

  // ---- Threads in both loops ----

  ghost predicate Reached(count: nat, n: nat, s: State) {
    exists sched :: Leads(StepOk, Init(count, n), sched, s)
  }

  lemma {:induction false} Reach(count: nat, n: nat, s: State, e: Who, s': State)
    requires Reached(count, n, s) && StepOk(s, e, s')
    ensures Reached(count, n, s')
  {
    var sched :| Leads(StepOk, Init(count, n), sched, s);
    Then(StepOk, Init(count, n), sched, s, e, s');
  }

  ghost predicate LoopsApart(s: State) {
    forall t, u :: 0 <= t < |s.workers| && 0 <= u < |s.workers| ==>
                     !(InLatencyLoop(s.workers[t]) && InThroughputLoop(s.workers[u]))
  }

  // Thread t comes back from meeting b, finds the flag down and goes on to the next.
  function Advanced(s: State, b: nat, t: nat): State
    requires t < |s.workers| == |s.stats|
  {
    s.(arrived := s.arrived + 1, workers := s.workers[t := At(b + 1, s.gen)],
       stats := s.stats[t := Finished(s.stats[t], b)])
  }

  lemma {:induction false} Advance(count: nat, n: nat, s: State, b: nat, t: nat)
    requires Reached(count, n, s) && b <= 1 && t < |s.workers| == |s.stats|
    requires s.workers[t].At? && s.workers[t].b == b && s.workers[t].gen < s.gen
    requires !Running(s, b) && s.arrived + 1 < s.count
    ensures Reached(count, n, Advanced(s, b, t))
  {
    var looping := WorkerStep(s, t);
    assert looping == s.(workers := s.workers[t := Loop(b)]);
    Reach(count, n, s, Thread(t), looping);
    var leaving := WorkerStep(looping, t);
    assert leaving == s.(workers := s.workers[t := Leave(b)]);
    Reach(count, n, looping, Thread(t), leaving);
    var coming := WorkerStep(leaving, t);
    assert coming == s.(workers := s.workers[t := Arrive(b + 1)], stats := s.stats[t := Finished(s.stats[t], b)]);
    Reach(count, n, leaving, Thread(t), coming);
    assert WorkerStep(coming, t) == Advanced(s, b, t);
    Reach(count, n, coming, Thread(t), Advanced(s, b, t));
  }

  // Threads from lo to hi do so, one after the other.
  lemma {:induction false} AdvanceMany(count: nat, n: nat, s: State, b: nat, lo: nat, hi: nat) returns (s': State)
    requires Reached(count, n, s) && b <= 1 && lo <= hi <= |s.workers| == |s.stats|
    requires forall t :: lo <= t < hi ==> s.workers[t].At? && s.workers[t].b == b && s.workers[t].gen < s.gen
    requires !Running(s, b) && s.arrived + (hi - lo) < s.count
    ensures Reached(count, n, s')
    ensures s' == s.(arrived := s.arrived + (hi - lo), workers := s'.workers, stats := s'.stats)
    ensures |s'.workers| == |s'.stats| == |s.workers|
    ensures forall t :: 0 <= t < |s.workers| ==>
                          s'.workers[t] == if lo <= t < hi then At(b + 1, s.gen) else s.workers[t]
    decreases hi - lo
  {
    if lo == hi {
      s' := s;
    } else {
      var before := AdvanceMany(count, n, s, b, lo, hi - 1);
      Advance(count, n, before, b, hi - 1);
      s' := Advanced(before, b, hi - 1);
    }
  }

  lemma {:induction false} LeaderGoes(count: nat, n: nat, s: State) returns (s': State)
    requires Reached(count, n, s) && LeaderCan(s)
    ensures s' == LeaderStep(s) && Reached(count, n, s')
  {
    s' := LeaderStep(s);
    Reach(count, n, s, Lead, s');
  }

  lemma {:induction false} WorkerGoes(count: nat, n: nat, s: State, t: nat) returns (s': State)
    requires Reached(count, n, s) && t < |s.workers| == |s.stats| && WorkerCan(s, s.workers[t])
    ensures s' == WorkerStep(s, t) && Reached(count, n, s')
  {
    s' := WorkerStep(s, t);
    Reach(count, n, s, Thread(t), s');
  }

  // The first count - 1 threads and the leader meet, and the leader ends the first loop;
  // the other threads are still to come.
  lemma {:induction false} FirstLoopEnds(count: nat, n: nat) returns (s: State)
    requires 1 <= count <= n
    ensures Reached(count, n, s) && s.count == count && s.arrived == 0 && s.gen == 1
    ensures s.leader == Coming(1) && !s.running0 && |s.workers| == |s.stats| == n
    ensures forall t :: 0 <= t < n ==> s.workers[t] == if t < count - 1 then At(0, 0) else Arrive(0)
  {
    GatheredReached(count, n, count - 1);
    s := Gathered(count, n, count - 1);
    s := LeaderGoes(count, n, s);
    s := LeaderGoes(count, n, s);
    s := LeaderGoes(count, n, s);
  }

  // They meet again and the leader ends the second loop too, before any thread is in it.
  lemma {:induction false} SecondLoopEnds(count: nat, n: nat) returns (s: State)
    requires 2 <= count <= n
    ensures Reached(count, n, s) && s.count == count && s.arrived == 1 && s.gen == 2
    ensures !s.running1 && |s.workers| == |s.stats| == n
    ensures forall t :: 0 <= t < n ==> s.workers[t] == if t < count - 1 then At(1, 1) else Arrive(0)
  {
    s := FirstLoopEnds(count, n);
    s := AdvanceMany(count, n, s, 0, 0, count - 1);
    s := LeaderGoes(count, n, s);
    s := LeaderGoes(count, n, s);
    s := LeaderGoes(count, n, s);
    s := LeaderGoes(count, n, s);
  }

  // Thread 0 comes to the throughput loop.  The rest of those go on to the third
  // meeting, where with the leader they let a latecomer into the latency loop.
  lemma {:induction false} LatecomerOverlaps(count: nat, n: nat) returns (s: State)
    requires 2 <= count <= n
    ensures Reached(count, n, s) && !LoopsApart(s)
  {
    var late := count - 1;
    s := SecondLoopEnds(count, n);
    s := WorkerGoes(count, n, s, 0);
    s := AdvanceMany(count, n, s, 1, 1, late);
    s := WorkerGoes(count, n, s, late);
    s := WorkerGoes(count, n, s, late);
    assert InLatencyLoop(s.workers[late]) && InThroughputLoop(s.workers[0]);
  }

  // A barrier for one holds up nobody.
  lemma {:induction false} OpenBarrierOverlaps(n: nat) returns (s: State)
    requires n >= 2
    ensures Reached(1, n, s) && !LoopsApart(s)
  {
    s := FirstLoopEnds(1, n);
    s := WorkerGoes(1, n, s, 0);
    s := WorkerGoes(1, n, s, 0);
    s := WorkerGoes(1, n, s, 0);
    s := WorkerGoes(1, n, s, 0);
    s := WorkerGoes(1, n, s, 0);
    s := WorkerGoes(1, n, s, 0);
    s := WorkerGoes(1, n, s, 1);
    s := WorkerGoes(1, n, s, 1);
    assert InLatencyLoop(s.workers[1]) && InThroughputLoop(s.workers[0]);
  }

  lemma {:induction false} FewThreads(count: nat, n: nat, s: State)
    requires n < 2 && Reached(count, n, s)
    ensures LoopsApart(s)
  {
    var sched :| Leads(StepOk, Init(count, n), sched, s);
    var run: seq<State> :| Is(StepOk, run, sched) && run[0] == Init(count, n) && run[|sched|] == s;
    ThreadCount(run, sched, count, n, |sched|);
  }

  ghost predicate AlwaysApart(count: nat, n: nat) { forall s :: Reached(count, n, s) ==> LoopsApart(s) }

  // No two threads are in the two loops at once, in every run, if and only if the barrier
  // is made for all, or there is but one thread.
  lemma {:induction false} ApartIff(count: nat, n: nat)
    requires 1 <= count <= n + 1
    ensures AlwaysApart(count, n) <==> count == n + 1 || n < 2
  {
    if count == n + 1 {
      forall s | Reached(count, n, s) ensures LoopsApart(s) {
        var sched :| Leads(StepOk, Init(count, n), sched, s);
        var run: seq<State> :| Is(StepOk, run, sched) && run[0] == Init(count, n) && run[|sched|] == s;
        forall t: nat, u: nat | t < |s.workers| && u < |s.workers|
          ensures !(InLatencyLoop(s.workers[t]) && InThroughputLoop(s.workers[u]))
        {
          LoopsNeverOverlap(run, sched, n, |sched|, t, u);
        }
      }
    } else if n < 2 {
      forall s | Reached(count, n, s) ensures LoopsApart(s) { FewThreads(count, n, s); }
    } else if count == 1 {
      var s := OpenBarrierOverlaps(n);
    } else {
      var s := LatecomerOverlaps(count, n);
    }
  }

  // ---- Calls in both loops ----

  // No call for throughput is made during one for latency.
  ghost predicate CallsApart(s: State) {
    forall t, u :: 0 <= t < |s.workers| && 0 <= u < |s.workers| ==>
                     !(s.workers[t] == Call(0) && s.workers[u] == Call(1))
  }

  lemma {:induction false} LoopsThenCalls(s: State)
    requires LoopsApart(s)
    ensures CallsApart(s)
  {
    forall t, u | 0 <= t < |s.workers| && 0 <= u < |s.workers|
      ensures !(s.workers[t] == Call(0) && s.workers[u] == Call(1))
    {
      assert !(InLatencyLoop(s.workers[t]) && InThroughputLoop(s.workers[u]));
    }
  }

  // A barrier for one: thread 1 is in a call when the leader ends the first loop, and
  // thread 0 goes straight on to the second.
  lemma {:induction false} OpenBarrierCalls(n: nat) returns (s: State)
    requires n >= 2
    ensures Reached(1, n, s) && !CallsApart(s)
  {
    GatheredReached(1, n, 0);
    s := Gathered(1, n, 0);
    s := WorkerGoes(1, n, s, 1);
    s := WorkerGoes(1, n, s, 1);
    s := WorkerGoes(1, n, s, 1);
    s := LeaderGoes(1, n, s);
    s := LeaderGoes(1, n, s);
    s := LeaderGoes(1, n, s);
    s := ThreadZeroCalls(n, s);
    assert s.workers[1] == Call(0) && s.workers[0] == Call(1);
  }

  lemma {:induction false} ThreadZeroCalls(n: nat, s: State) returns (s': State)
    requires Reached(1, n, s) && |s.workers| == |s.stats| == n >= 2 && s.count == 1 && s.arrived == 0
    requires s.workers[0] == Arrive(0) && !s.running0 && s.running1
    ensures Reached(1, n, s') && s'.workers == s.workers[0 := Call(1)]
  {
    s' := WorkerGoes(1, n, s, 0);
    s' := WorkerGoes(1, n, s', 0);
    s' := WorkerGoes(1, n, s', 0);
    s' := WorkerGoes(1, n, s', 0);
    s' := WorkerGoes(1, n, s', 0);
    s' := WorkerGoes(1, n, s', 0);
    s' := WorkerGoes(1, n, s', 0);
  }

  // A barrier for three or more: a slow thread is still in its call when the others it met
  // meet again, a latecomer in its place, and thread 0 goes on to the second loop.
  lemma {:induction false} SlowCallOverlaps(count: nat, n: nat) returns (s: State)
    requires 3 <= count <= n
    ensures Reached(count, n, s) && !CallsApart(s)
  {
    var slow, late := count - 2, count - 1;
    s := SlowCalls(count, n);
    s := AdvanceMany(count, n, s, 0, 0, slow);
    s := WorkerGoes(count, n, s, late);
    s := LeaderGoes(count, n, s);
    s := WorkerGoes(count, n, s, 0);
    s := WorkerGoes(count, n, s, 0);
    assert s.workers[slow] == Call(0) && s.workers[0] == Call(1);
  }

  // The first count - 1 threads met the leader, who ends the first loop during a call.
  lemma {:induction false} SlowCalls(count: nat, n: nat) returns (s: State)
    requires 3 <= count <= n
    ensures Reached(count, n, s) && s.count == count && s.arrived == 0 && s.gen == 1
    ensures s.leader == Coming(1) && !s.running0 && s.running1 && |s.workers| == |s.stats| == n
    ensures forall t :: 0 <= t < n ==> s.workers[t] == if t < count - 2 then At(0, 0)
                                                       else if t == count - 2 then Call(0) else Arrive(0)
  {
    GatheredReached(count, n, count - 1);
    s := Gathered(count, n, count - 1);
    s := LeaderGoes(count, n, s);
    s := WorkerGoes(count, n, s, count - 2);
    s := WorkerGoes(count, n, s, count - 2);
    s := LeaderGoes(count, n, s);
    s := LeaderGoes(count, n, s);
  }

  // A barrier for two, and three threads: 0 meets 1 and stays in a call, the leader meets
  // 2 and ends the first loop, and 1 and 2 meet and go on to the second.
  lemma {:induction false} PairsOverlap(n: nat) returns (s: State)
    requires n >= 3
    ensures Reached(2, n, s) && !CallsApart(s)
  {
    s := PairsMeet(n);
    s := Leaves(2, n, s, 1);
    s := WorkerGoes(2, n, s, 1);
    s := Leaves(2, n, s, 2);
    s := WorkerGoes(2, n, s, 2);
    s := WorkerGoes(2, n, s, 1);
    s := WorkerGoes(2, n, s, 1);
    assert s.workers[0] == Call(0) && s.workers[1] == Call(1);
  }

  lemma {:induction false} PairsMeet(n: nat) returns (s: State)
    requires n >= 3
    ensures Reached(2, n, s) && s.count == 2 && s.arrived == 0 && s.gen == 2
    ensures !s.running0 && s.running1 && |s.workers| == |s.stats| == n
    ensures s.workers[0] == Call(0) && s.workers[1] == At(0, 0) && s.workers[2] == At(0, 1)
  {
    GatheredReached(2, n, 0);
    s := Gathered(2, n, 0);
    s := WorkerGoes(2, n, s, 0);
    s := WorkerGoes(2, n, s, 1);
    s := WorkerGoes(2, n, s, 0);
    s := WorkerGoes(2, n, s, 0);
    s := WorkerGoes(2, n, s, 2);
    s := LeaderGoes(2, n, s);
    s := LeaderGoes(2, n, s);
    s := LeaderGoes(2, n, s);
  }

  // Back from the first meeting, thread t finds the flag down and leaves the loop.
  lemma {:induction false} Leaves(count: nat, n: nat, s: State, t: nat) returns (s': State)
    requires Reached(count, n, s) && t < |s.workers| == |s.stats| && !s.running0
    requires s.workers[t].At? && s.workers[t].b == 0 && s.workers[t].gen < s.gen
    ensures Reached(count, n, s') && |s'.stats| == |s.stats|
    ensures s' == s.(workers := s.workers[t := Arrive(1)], stats := s'.stats)
  {
    s' := WorkerGoes(count, n, s, t);
    s' := WorkerGoes(count, n, s', t);
    s' := WorkerGoes(count, n, s', t);
  }

  // ---- Two threads and a barrier for two ----

  // Meetings a thread has come back from or may come back from.
  function Passed(w: Worker, gen: nat): nat { if w.At? && w.gen < gen then w.b + 1 else Back(w) }

  function Held(s: State, t: nat): nat
    requires t < |s.workers|
  {
    if IsBlocked(s.workers[t], s.gen) then 1 else 0
  }

  function LeaderHeld(s: State): nat { LeaderBlocked(s.leader, s.gen) }

  function Arrivals(s: State): nat
    requires |s.workers| == 2
  {
    Come(s.workers[0]) + Come(s.workers[1]) + LeaderCome(s.leader)
  }

  predicate PlaceOk(w: Worker, gen: nat) { Placed(w) && (w.At? ==> w.gen <= gen) }

  predicate LeaderPlaceOk(l: Leader, gen: nat) {
    match l
    case Coming(b) => b <= 2
    case Waits(b, g) => b <= 2 && g <= gen
    case Sleep(k) => k <= 1
    case Create(next) => next <= 2
    case Join(next) => next <= 2
    case Read(next) => next < 2
    case Reset => true
  }

  // Not yet out of the first loop.
  predicate Early(w: Worker) {
    w.Absent? || w == Arrive(0) || (w.At? && w.b == 0) || w == Loop(0) || w == Call(0)
  }

  // Threads exist once created and have exited once joined.
  ghost predicate CreatedOk(l: Leader, w: Worker, t: nat) {
    match l
    case Reset => w.Absent?
    case Create(next) => w.Absent? <==> t >= next
    case Join(next) => !w.Absent? && (t < next ==> w.Exited?)
    case Read(next) => !w.Absent? && (t <= next ==> w.Exited?)
    case _ => !w.Absent?
  }

  // Arrivals are met in pairs, so that their number tells who is blocked.
  ghost predicate Tallied(s: State)
    requires |s.workers| == 2
  {
    && s.arrived == Held(s, 0) + Held(s, 1) + LeaderHeld(s) <= 1
    && 2 * s.gen + s.arrived == Arrivals(s)
  }

  ghost predicate Shape(s: State) {
    && s.count == 2 && |s.workers| == |s.stats| == 2 && s.tests == 0
    && LeaderPlaceOk(s.leader, s.gen) && FlagsOk(s)
  }

  ghost predicate WorkerOk(s: State, t: nat)
    requires t < |s.workers|
  {
    && PlaceOk(s.workers[t], s.gen) && CreatedOk(s.leader, s.workers[t], t)
    && (s.running0 || s.leader.Reset? ==> Early(s.workers[t]))
  }

  // While w is in a call of the first loop whose flag is down, u comes back from its second
  // meeting only if that was with the leader's third, and then the second flag is down.
  ghost predicate CallOk(s: State, w: Worker, u: Worker) {
    w == Call(0) ==> u != Call(1) && (!s.running0 && Passed(u, s.gen) >= 2 ==> LeaderCome(s.leader) == 3)
  }

  ghost predicate PlacesOk(s: State) { Shape(s) && WorkerOk(s, 0) && WorkerOk(s, 1) }

  ghost predicate CallsOk(s: State)
    requires |s.workers| == 2
  {
    CallOk(s, s.workers[0], s.workers[1]) && CallOk(s, s.workers[1], s.workers[0])
  }

  ghost predicate TwoInv(s: State) { PlacesOk(s) && CallsOk(s) && Tallied(s) }

  // Nobody is held by the generation to come.
  lemma {:induction false} NoneHeld(s: State, s': State)
    requires PlacesOk(s) && |s'.workers| == 2 && s'.gen == s.gen + 1
    requires forall t :: 0 <= t < 2 ==>
                           s'.workers[t] == s.workers[t] || (s'.workers[t].At? && s'.workers[t].gen == s.gen)
    requires s'.leader == s.leader || (s'.leader.Waits? && s'.leader.gen == s.gen)
    ensures Held(s', 0) == Held(s', 1) == LeaderHeld(s') == 0
  {
  }

  lemma {:induction false} TalliedArrives(s: State, t: nat)
    requires PlacesOk(s) && Tallied(s) && t < 2 && s.workers[t].Arrive?
    ensures Tallied(WorkerStep(s, t))
  {
    var s' := WorkerStep(s, t);
    assert s'.workers[1 - t] == s.workers[1 - t];
    assert Arrivals(s') == Arrivals(s) + 1;
    if s.arrived == 1 { NoneHeld(s, s'); } else { assert Held(s', t) == 1; }
  }

  lemma {:induction false} TalliedLeader(s: State)
    requires PlacesOk(s) && Tallied(s) && s.leader.Coming?
    ensures Tallied(LeaderStep(s))
  {
    var s' := LeaderStep(s);
    assert Arrivals(s') == Arrivals(s) + 1;
    if s.arrived == 1 { NoneHeld(s, s'); } else { assert LeaderHeld(s') == 1; }
  }

  // A call whose flag is down was begun before the leader's second meeting, so another
  // thread's second meeting is with the leader only if it is the leader's third.
  lemma {:induction false} ThreadMeets(s: State, t: nat)
    requires PlacesOk(s) && Tallied(s) && t < 2 && s.arrived == 1
    requires s.workers[t] == Arrive(1) && s.workers[1 - t] == Call(0)
    ensures s.leader.Waits? && s.leader.b != 1
  {
    assert LeaderHeld(s) == 1;
  }

  lemma {:induction false} LeaderMeets(s: State, t: nat)
    requires PlacesOk(s) && Tallied(s) && t < 2 && s.leader.Coming?
    requires s.workers[t] == Call(0) && s.workers[1 - t] == At(1, s.gen)
    ensures s.leader.b != 1
  {
    assert Held(s, 1 - t) == 1;
  }

  lemma {:induction false} PlacesArrives(s: State, t: nat)
    requires PlacesOk(s) && t < 2 && s.workers[t].Arrive?
    ensures PlacesOk(WorkerStep(s, t))
  {
  }

  // Thread t arrives during a call of the other.
  lemma {:induction false} ArrivesInCall(s: State, t: nat)
    requires PlacesOk(s) && CallsOk(s) && Tallied(s) && t < 2 && s.workers[t].Arrive? && s.workers[1 - t] == Call(0)
    requires s.arrived <= 1
    ensures CallOk(WorkerStep(s, t), Call(0), WorkerStep(s, t).workers[t])
  {
    if s.arrived == 1 && s.workers[t].b == 1 { ThreadMeets(s, t); }
  }

  lemma {:induction false} TwoArrives(s: State, t: nat)
    requires TwoInv(s) && t < 2 && s.workers[t].Arrive?
    ensures TwoInv(WorkerStep(s, t))
  {
    TalliedArrives(s, t);
    PlacesArrives(s, t);
    if s.workers[1 - t] == Call(0) { ArrivesInCall(s, t); }
    assert WorkerStep(s, t).workers[1 - t] == s.workers[1 - t];
  }

  lemma {:induction false} MoveMeetsNobody(s: State, t: nat)
    requires t < |s.workers| == |s.stats| && WorkerCan(s, s.workers[t]) && !s.workers[t].Arrive?
    requires PlaceOk(s.workers[t], s.gen)
    ensures var w := WorkerStep(s, t).workers[t];
            && Come(w) == Come(s.workers[t]) && IsBlocked(w, s.gen) == IsBlocked(s.workers[t], s.gen)
            && PlaceOk(w, s.gen) && !w.Absent?
  {
  }

  lemma {:induction false} TalliedMoves(s: State, t: nat)
    requires PlacesOk(s) && Tallied(s) && t < 2 && WorkerCan(s, s.workers[t]) && !s.workers[t].Arrive?
    ensures Tallied(WorkerStep(s, t))
  {
    MoveMeetsNobody(s, t);
    var s' := WorkerStep(s, t);
    assert s'.workers == s.workers[t := s'.workers[t]] && s'.gen == s.gen && s'.arrived == s.arrived;
    assert s'.leader == s.leader && s'.workers[1 - t] == s.workers[1 - t];
  }

  lemma {:induction false} PlacesMoves(s: State, t: nat)
    requires PlacesOk(s) && t < 2 && WorkerCan(s, s.workers[t]) && !s.workers[t].Arrive?
    ensures PlacesOk(WorkerStep(s, t))
  {
    MoveMeetsNobody(s, t);
    var s' := WorkerStep(s, t);
    assert s'.leader == s.leader && s'.workers[1 - t] == s.workers[1 - t] && s'.gen == s.gen;
    assert !s.workers[t].Exited?;
  }

  lemma {:induction false} CallsMoves(s: State, t: nat)
    requires PlacesOk(s) && CallsOk(s) && t < 2 && WorkerCan(s, s.workers[t]) && !s.workers[t].Arrive?
    ensures |WorkerStep(s, t).workers| == 2 && CallsOk(WorkerStep(s, t))
  {
  }

  lemma {:induction false} TwoMoves(s: State, t: nat)
    requires TwoInv(s) && t < 2 && WorkerCan(s, s.workers[t]) && !s.workers[t].Arrive?
    ensures TwoInv(WorkerStep(s, t))
  {
    TalliedMoves(s, t);
    PlacesMoves(s, t);
    CallsMoves(s, t);
  }

  lemma {:induction false} LeaderInCall(s: State, t: nat)
    requires PlacesOk(s) && CallsOk(s) && Tallied(s) && s.leader.Coming? && t < 2 && s.workers[t] == Call(0)
    requires s.arrived <= 1
    ensures CallOk(LeaderStep(s), Call(0), s.workers[1 - t])
  {
    if s.arrived == 1 && s.workers[1 - t] == At(1, s.gen) { LeaderMeets(s, t); }
  }

  lemma {:induction false} PlacesLeader(s: State)
    requires PlacesOk(s) && s.leader.Coming?
    ensures PlacesOk(LeaderStep(s)) && LeaderStep(s).workers == s.workers
  {
  }

  lemma {:induction false} TwoLeaderArrives(s: State)
    requires TwoInv(s) && s.leader.Coming?
    ensures TwoInv(LeaderStep(s))
  {
    PlacesLeader(s);
    TalliedLeader(s);
    if s.workers[0] == Call(0) { LeaderInCall(s, 0); }
    if s.workers[1] == Call(0) { LeaderInCall(s, 1); }
  }

  // A test never ends: nine arrivals are not met in pairs.
  lemma {:induction false} NotAllJoined(s: State)
    requires PlacesOk(s) && Tallied(s)
    ensures s.leader != Join(2)
  {
  }

  lemma {:induction false} PlacesLeads(s: State)
    requires PlacesOk(s) && LeaderCan(s) && !s.leader.Coming? && s.leader != Join(2)
    ensures PlacesOk(LeaderStep(s))
  {
  }

  lemma {:induction false} CallsLeads(s: State)
    requires PlacesOk(s) && CallsOk(s) && LeaderCan(s) && !s.leader.Coming? && s.leader != Join(2)
    ensures |LeaderStep(s).workers| == 2 && CallsOk(LeaderStep(s))
  {
  }

  // The leader's other steps meet nobody either.
  lemma {:induction false} LeadMeetsNobody(s: State)
    requires PlacesOk(s) && LeaderCan(s) && !s.leader.Coming? && s.leader != Join(2)
    ensures var s' := LeaderStep(s);
            && s'.arrived == s.arrived && s'.gen == s.gen && |s'.workers| == 2
            && Arrivals(s') == Arrivals(s) && LeaderHeld(s') == LeaderHeld(s)
            && Held(s', 0) == Held(s, 0) && Held(s', 1) == Held(s, 1)
  {
  }

  lemma {:induction false} TwoLeaderMoves(s: State)
    requires TwoInv(s) && LeaderCan(s) && !s.leader.Coming?
    ensures TwoInv(LeaderStep(s))
  {
    NotAllJoined(s);
    PlacesLeads(s);
    CallsLeads(s);
    LeadMeetsNobody(s);
  }

  lemma {:induction false} TwoRun(run: seq<State>, sched: seq<Who>, i: nat)
    requires Is(StepOk, run, sched) && run[0] == Init(2, 2) && i < |run|
    ensures TwoInv(run[i])
  {
    if i > 0 {
      TwoRun(run, sched, i - 1);
      var s, e := run[i - 1], sched[i - 1];
      assert StepOk(s, e, run[i]);
      if e.Thread? {
        if s.workers[e.t].Arrive? { TwoArrives(s, e.t); } else { TwoMoves(s, e.t); }
      } else {
        if s.leader.Coming? { TwoLeaderArrives(s); } else { TwoLeaderMoves(s); }
      }
    }
  }

  lemma {:induction false} CallsOkApart(s: State)
    requires |s.workers| == 2 && CallsOk(s)
    ensures CallsApart(s)
  {
  }

  lemma {:induction false} TwoCallsApart(s: State)
    requires Reached(2, 2, s)
    ensures CallsApart(s)
  {
    var sched :| Leads(StepOk, Init(2, 2), sched, s);
    var run: seq<State> :| Is(StepOk, run, sched) && run[0] == Init(2, 2) && run[|sched|] == s;
    TwoRun(run, sched, |sched|);
    CallsOkApart(s);
  }

  ghost predicate AlwaysCallsApart(count: nat, n: nat) { forall s :: Reached(count, n, s) ==> CallsApart(s) }

  // In every run no call for throughput is made during one for latency if and only if the
  // barrier is made for all, or there is but one thread, or there are two and a barrier
  // for two.
  lemma {:induction false} CallsApartIff(count: nat, n: nat)
    requires 1 <= count <= n + 1
    ensures AlwaysCallsApart(count, n) <==> count == n + 1 || n < 2 || (count == 2 && n == 2)
  {
    ApartIff(count, n);
    if count == n + 1 || n < 2 {
      forall s | Reached(count, n, s) ensures CallsApart(s) { LoopsThenCalls(s); }
    } else if count == 2 && n == 2 {
      forall s | Reached(2, 2, s) ensures CallsApart(s) { TwoCallsApart(s); }
    } else if count == 1 {
      var s := OpenBarrierCalls(n);
    } else if count == 2 {
      var s := PairsOverlap(n);
    } else {
      var s := SlowCallOverlaps(count, n);
    }
  }

  // ---- For the groups of a command line ----

  // Some CPU of them is available, or the program ends before any thread is started.
  lemma {:induction false} LoopsKeptIff(groups: seq<ThreadStart.Mask>, avail: set<nat>)
    requires ThreadStart.Union(groups) * avail != {}
    ensures AlwaysApart(|ThreadStart.Union(groups) * avail| + 1, ThreadStart.Sizes(groups)) <==>
            (ThreadStart.Disjoint(groups) && ThreadStart.Within(groups, avail)) || ThreadStart.Sizes(groups) < 2
  {
    ThreadStart.BarrierFitsIff(groups, avail);
    ApartIff(|ThreadStart.Union(groups) * avail| + 1, ThreadStart.Sizes(groups));
  }

  lemma {:induction false} CallsKeptIff(groups: seq<ThreadStart.Mask>, avail: set<nat>)
    requires ThreadStart.Union(groups) * avail != {}
    ensures AlwaysCallsApart(|ThreadStart.Union(groups) * avail| + 1, ThreadStart.Sizes(groups)) <==>
            || (ThreadStart.Disjoint(groups) && ThreadStart.Within(groups, avail))
            || (ThreadStart.Sizes(groups) <= 2 && |ThreadStart.Union(groups) * avail| == 1)
  {
    var tested, n := ThreadStart.Union(groups) * avail, ThreadStart.Sizes(groups);
    ThreadStart.BarrierFitsIff(groups, avail);
    assert |tested| > 0;
    CallsApartIff(|tested| + 1, n);
  }
}
