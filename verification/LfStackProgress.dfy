/** The stack is lock-free: an exchange that fails, but for no reason of its own, saw a
    head that another exchange moved, so whatever the interleaving the calls come to an
    end, and the steps of a run are bounded by the calls it began. */
module LfStackProgress {
  import opened LfStack
  import opened LfStackInvariant

  predicate AtStackCas(th: Thread) { th.PopStackCas? || th.PushStackCas? }

  predicate AtCacheCas(th: Thread) { th.PushCacheCas? || th.PopCacheCas? }

  // The step is an exchange that fails because the head is another by now.
  predicate Loses(s: State, e: (nat, Action)) {
    && e.0 < |s.threads| && e.1 == Run(false)
    && var th := s.threads[e.0];
       (AtStackCas(th) && s.stack != th.orig.head) || (AtCacheCas(th) && s.cache != th.orig.head)
  }

  // Such a head has moved since the thread read it.
  lemma {:induction false} LoserSawMove(s: State, e: (nat, Action))
    requires Inv(s) && Loses(s, e)
    ensures var th := s.threads[e.0]; th.orig.at < if AtStackCas(th) then s.stackX else s.cacheX
  {
    assert ThreadOk(s, s.threads[e.0]);
  }

  // ---- What a thread lost ----

  function LostBy(run: seq<State>, sched: Schedule, i: nat, t: nat): nat
    requires i < |run| && i <= |sched|
  {
    if i == 0 then 0
    else LostBy(run, sched, i - 1, t) + if sched[i - 1].0 == t && Loses(run[i - 1], sched[i - 1]) then 1 else 0
  }

  // The exchanges on either head that the thread can have seen.
  function Seen(s: State, th: Thread): nat {
    (if HasStackOrig(th) then th.orig.at else s.stackX) + (if HasCacheOrig(th) then th.orig.at else s.cacheX)
  }

  ghost predicate Past(s: State, th: Thread) {
    (HasStackOrig(th) ==> th.orig.at <= s.stackX) && (HasCacheOrig(th) ==> th.orig.at <= s.cacheX)
  }

  lemma {:induction false} InvPast(s: State, t: nat)
    requires Inv(s) && t < |s.threads|
    ensures Past(s, s.threads[t])
  {
    assert ThreadOk(s, s.threads[t]);
  }

  // Its own step takes a new snapshot or none.
  lemma {:induction false} OwnSeenGrows(s: State, t: nat, a: Action)
    requires Enabled(s, t, a) && Past(s, s.threads[t]) && !Loses(s, (t, a))
    ensures Seen(s, s.threads[t]) <= Seen(Next(s, t, a), Next(s, t, a).threads[t])
  {
    if a.Run? { RunSeenGrows(s, t, a.spurious); }
  }

  lemma {:induction false} RunSeenGrows(s: State, t: nat, spurious: bool)
    requires Enabled(s, t, Run(spurious)) && Past(s, s.threads[t])
    ensures Seen(s, s.threads[t]) <= Seen(RunStep(s, t, spurious), RunStep(s, t, spurious).threads[t])
  {
  }

  lemma {:induction false} LoserSeesMore(s: State, t: nat, a: Action)
    requires Inv(s) && Enabled(s, t, a) && Loses(s, (t, a))
    ensures Seen(s, s.threads[t]) < Seen(Next(s, t, a), Next(s, t, a).threads[t])
  {
    LoserSawMove(s, (t, a));
  }

  lemma {:induction false} HeadsGrow(s: State, t: nat, a: Action)
    requires Enabled(s, t, a)
    ensures s.stackX <= Next(s, t, a).stackX && s.cacheX <= Next(s, t, a).cacheX
  {
  }

  lemma {:induction false} SeenGrows(s: State, e: (nat, Action), s': State, t: nat)
    requires Inv(s) && StepOk(s, e, s') && t < |s.threads|
    ensures |s'.threads| == |s.threads|
    ensures Seen(s, s.threads[t]) + (if e.0 == t && Loses(s, e) then 1 else 0) <= Seen(s', s'.threads[t])
  {
    StepThreads(s, e.0, e.1);
    HeadsGrow(s, e.0, e.1);
    InvPast(s, t);
    if e.0 == t {
      if Loses(s, e) { LoserSeesMore(s, t, e.1); } else { OwnSeenGrows(s, t, e.1); }
    }
  }

  // A thread loses no more exchanges than were won on both heads together.
  lemma {:induction false} LostBySeen(run: seq<State>, sched: Schedule, i: nat, t: nat)
    requires IsRun(run, sched) && Init(run[0]) && TimelyRun(run, sched) && i < |run| && t < |run[i].threads|
    ensures LostBy(run, sched, i, t) <= Seen(run[i], run[i].threads[t])
  {
    if i > 0 {
      assert StepOk(run[i - 1], sched[i - 1], run[i]);
      StepThreads(run[i - 1], sched[i - 1].0, sched[i - 1].1);
      LostBySeen(run, sched, i - 1, t);
      InvRun(run, sched, i - 1);
      SeenGrows(run[i - 1], sched[i - 1], run[i], t);
    }
  }

  lemma {:induction false} LostBounded(run: seq<State>, sched: Schedule, i: nat, t: nat)
    requires IsRun(run, sched) && Init(run[0]) && TimelyRun(run, sched) && i < |run| && t < |run[i].threads|
    ensures LostBy(run, sched, i, t) <= run[i].stackX + run[i].cacheX
  {
    LostBySeen(run, sched, i, t);
    InvRun(run, sched, i);
    InvPast(run[i], t);
  }

  // ---- Sums over the threads ----

  function Sum(f: Thread -> nat, threads: seq<Thread>): nat {
    if threads == [] then 0 else f(threads[0]) + Sum(f, threads[1..])
  }

  lemma {:induction false} SumUpdate(f: Thread -> nat, threads: seq<Thread>, t: nat, th: Thread)
    requires t < |threads|
    ensures Sum(f, threads[t := th]) + f(threads[t]) == Sum(f, threads) + f(th)
  {
    if t == 0 {
      assert threads[t := th][1..] == threads[1..];
    } else {
      assert threads[t := th][1..] == threads[1..][t - 1 := th];
      SumUpdate(f, threads[1..], t - 1, th);
    }
  }

  lemma {:induction false} SumNothing(f: Thread -> nat, threads: seq<Thread>)
    requires forall t :: 0 <= t < |threads| ==> f(threads[t]) == 0
    ensures Sum(f, threads) == 0
  {
    if threads != [] { SumNothing(f, threads[1..]); }
  }

  function Lost(run: seq<State>, sched: Schedule, i: nat): nat
    requires i < |run| && i <= |sched|
  {
    if i == 0 then 0 else Lost(run, sched, i - 1) + if Loses(run[i - 1], sched[i - 1]) then 1 else 0
  }

  // What the first n threads have seen.
  function SeenBy(s: State, n: nat): nat
    requires n <= |s.threads|
  {
    if n == 0 then 0 else SeenBy(s, n - 1) + Seen(s, s.threads[n - 1])
  }

  // Every thread has seen as much as before, and the loser, if there is one, more.
  ghost predicate AllSeeMore(s: State, s': State, n: nat, loser: int)
    requires n <= |s.threads| && n <= |s'.threads|
  {
    forall t: nat :: t < n ==>
                       Seen(s, s.threads[t]) + (if t == loser then 1 else 0) <= Seen(s', s'.threads[t])
  }

  lemma {:induction false} SeenByGrows(s: State, s': State, n: nat, loser: int)
    requires n <= |s.threads| && n <= |s'.threads| && AllSeeMore(s, s', n, loser)
    ensures SeenBy(s, n) + (if 0 <= loser < n then 1 else 0) <= SeenBy(s', n)
  {
    if n > 0 { SeenByGrows(s, s', n - 1, loser); }
  }

  lemma {:induction false} StepSeesMore(s: State, e: (nat, Action), s': State)
    requires Inv(s) && StepOk(s, e, s')
    ensures |s'.threads| == |s.threads|
    ensures AllSeeMore(s, s', |s.threads|, if Loses(s, e) then e.0 else -1)
  {
    StepThreads(s, e.0, e.1);
    forall t: nat | t < |s.threads|
      ensures Seen(s, s.threads[t]) + (if e.0 == t && Loses(s, e) then 1 else 0) <= Seen(s', s'.threads[t])
    {
      SeenGrows(s, e, s', t);
    }
  }

  lemma {:induction false} LostIsSeen(run: seq<State>, sched: Schedule, i: nat)
    requires IsRun(run, sched) && Init(run[0]) && TimelyRun(run, sched) && i < |run|
    ensures Lost(run, sched, i) <= SeenBy(run[i], |run[i].threads|)
  {
    if i > 0 {
      var s, e, s' := run[i - 1], sched[i - 1], run[i];
      assert StepOk(s, e, s');
      LostIsSeen(run, sched, i - 1);
      InvRun(run, sched, i - 1);
      StepSeesMore(s, e, s');
      SeenByGrows(s, s', |s.threads|, if Loses(s, e) then e.0 else -1);
    }
  }

  // n times x, as a sum.
  function Times(n: nat, x: nat): nat { if n == 0 then 0 else Times(n - 1, x) + x }

  lemma {:induction false} TimesIs(n: nat, x: nat)
    ensures Times(n, x) == n * x
  {
    if n > 0 { TimesIs(n - 1, x); }
  }

  lemma {:induction false} SeenByBounded(s: State, n: nat, won: nat)
    requires Inv(s) && n <= |s.threads| && s.stackX + s.cacheX <= won
    ensures SeenBy(s, n) <= Times(n, won)
  {
    if n > 0 {
      SeenByBounded(s, n - 1, won);
      InvPast(s, n - 1);
    }
  }

  // All together they lose at most as often as there are threads for each exchange won.
  lemma {:induction false} LossesNeedWins(run: seq<State>, sched: Schedule, i: nat, won: nat)
    requires IsRun(run, sched) && Init(run[0]) && TimelyRun(run, sched) && i < |run|
    requires run[i].stackX + run[i].cacheX <= won
    ensures Lost(run, sched, i) <= |run[0].threads| * won
  {
    LostTimes(run, sched, i, won);
    TimesIs(|run[0].threads|, won);
  }

  lemma {:induction false} LostTimes(run: seq<State>, sched: Schedule, i: nat, won: nat)
    requires IsRun(run, sched) && Init(run[0]) && TimelyRun(run, sched) && i < |run|
    requires run[i].stackX + run[i].cacheX <= won
    ensures Lost(run, sched, i) <= Times(|run[0].threads|, won)
  {
    ExchangesGrow(run, sched, 0, i);
    LostIsSeen(run, sched, i);
    InvRun(run, sched, i);
    SeenByBounded(run[i], |run[0].threads|, won);
  }

  // ---- The steps of a run ----

  predicate IsCall(a: Action) { a.CallPush? || a.CallPop? }

  // The calls begun in the first i steps.
  function Calls(sched: Schedule, i: nat): nat
    requires i <= |sched|
  {
    if i == 0 then 0 else Calls(sched, i - 1) + if IsCall(sched[i - 1].1) then 1 else 0
  }

  // And those at which an exchange, if it is one, fails for no reason.
  function Spurious(sched: Schedule, i: nat): nat
    requires i <= |sched|
  {
    if i == 0 then 0 else Spurious(sched, i - 1) + if sched[i - 1].1 == Run(true) then 1 else 0
  }

  // Steps to the end of the call if no exchange fails, and exchanges still to win.
  function StepsLeft(th: Thread): nat {
    match th
    case Idle => 0
    case PushLoadCache(_) => 8
    case PushTop(_, _) => 7
    case PushCacheCas(_, _, _) => 6
    case PushWriteData(_, _) => 5
    case PushLoadStack(_) => 4
    case PushWriteNext(_, _) => 3
    case PushStackCas(_, _) => 2
    case PushDone(_) => 1
    case PopLoadStack => 8
    case PopTop(_) => 7
    case PopStackCas(_, _) => 6
    case PopReadData(_) => 5
    case PopLoadCache(_, _) => 4
    case PopWriteNext(_, _, _) => 3
    case PopCacheCas(_, _, _) => 2
    case PopDone(_) => 1
  }

  function WinsLeft(th: Thread): nat { if StepsLeft(th) >= 6 then 2 else if StepsLeft(th) >= 2 then 1 else 0 }

  // A node behind the snapshot whose successor was read.
  predicate Sane(th: Thread) { th.PushCacheCas? || th.PopStackCas? ==> th.orig.head.ptr.Node? }

  lemma {:induction false} InvSane(s: State, t: nat)
    requires Inv(s) && t < |s.threads|
    ensures Sane(s.threads[t])
  {
    assert ThreadOk(s, s.threads[t]);
  }

  lemma {:induction false} TopCosts(s: State, t: nat)
    requires t < |s.threads| && (s.threads[t].PushTop? || s.threads[t].PopTop?)
    ensures StepsLeft(RunStep(s, t, false).threads[t]) < 7
    ensures StepsLeft(RunStep(s, t, true).threads[t]) < 7
  {
  }

  lemma {:induction false} CasCosts(s: State, t: nat, spurious: bool)
    requires t < |s.threads| && Sane(s.threads[t]) && (AtStackCas(s.threads[t]) || AtCacheCas(s.threads[t]))
    ensures StepsLeft(RunStep(s, t, spurious).threads[t]) + 1 <=
            StepsLeft(s.threads[t]) + if spurious || Loses(s, (t, Run(spurious))) then 2 else 0
  {
  }

  lemma {:induction false} PlainCosts(s: State, t: nat, spurious: bool)
    requires Enabled(s, t, Run(spurious)) && !AtStackCas(s.threads[t]) && !AtCacheCas(s.threads[t])
    requires !s.threads[t].PushTop? && !s.threads[t].PopTop?
    ensures StepsLeft(RunStep(s, t, spurious).threads[t]) < StepsLeft(s.threads[t])
  {
  }

  lemma {:induction false} StepCosts(s: State, t: nat, a: Action)
    requires Enabled(s, t, a) && Sane(s.threads[t])
    ensures StepsLeft(Next(s, t, a).threads[t]) + 1 <=
            StepsLeft(s.threads[t]) + (if IsCall(a) then 9 else 0) + if a == Run(true) || Loses(s, (t, a)) then 2 else 0
  {
    if a.Run? {
      if AtStackCas(s.threads[t]) || AtCacheCas(s.threads[t]) {
        CasCosts(s, t, a.spurious);
      } else if s.threads[t].PushTop? || s.threads[t].PopTop? {
        TopCosts(s, t);
      } else {
        PlainCosts(s, t, a.spurious);
      }
    }
  }

  lemma {:induction false} PushWinCosts(s: State, t: nat, spurious: bool)
    requires Enabled(s, t, Run(spurious)) && Sane(s.threads[t]) && !InPop(s.threads[t])
    ensures var s' := RunStep(s, t, spurious);
            s'.stackX + s'.cacheX + WinsLeft(s'.threads[t]) <= s.stackX + s.cacheX + WinsLeft(s.threads[t])
  {
  }

  lemma {:induction false} PopWinCosts(s: State, t: nat, spurious: bool)
    requires Enabled(s, t, Run(spurious)) && Sane(s.threads[t]) && InPop(s.threads[t])
    ensures var s' := RunStep(s, t, spurious);
            s'.stackX + s'.cacheX + WinsLeft(s'.threads[t]) <= s.stackX + s.cacheX + WinsLeft(s.threads[t])
  {
  }

  lemma {:induction false} WinCosts(s: State, t: nat, a: Action)
    requires Enabled(s, t, a) && Sane(s.threads[t])
    ensures var s' := Next(s, t, a);
            s'.stackX + s'.cacheX + WinsLeft(s'.threads[t]) <=
            s.stackX + s.cacheX + WinsLeft(s.threads[t]) + if IsCall(a) then 2 else 0
  {
    if a.Run? {
      if InPop(s.threads[t]) { PopWinCosts(s, t, a.spurious); } else { PushWinCosts(s, t, a.spurious); }
    }
  }

  // A call wins at most two exchanges.
  lemma {:induction false} WinsBounded(run: seq<State>, sched: Schedule, i: nat)
    requires IsRun(run, sched) && Init(run[0]) && TimelyRun(run, sched) && i < |run|
    ensures run[i].stackX + run[i].cacheX + Sum(WinsLeft, run[i].threads) <= 2 * Calls(sched, i)
  {
    if i == 0 {
      SumNothing(WinsLeft, run[0].threads);
    } else {
      var s, t, a := run[i - 1], sched[i - 1].0, sched[i - 1].1;
      assert StepOk(s, sched[i - 1], run[i]);
      WinsBounded(run, sched, i - 1);
      InvRun(run, sched, i - 1);
      InvSane(s, t);
      WinCosts(s, t, a);
      StepThreads(s, t, a);
      SumUpdate(WinsLeft, s.threads, t, run[i].threads[t]);
    }
  }

  lemma {:induction false} StepsBounded(run: seq<State>, sched: Schedule, i: nat)
    requires IsRun(run, sched) && Init(run[0]) && TimelyRun(run, sched) && i < |run|
    ensures i + Sum(StepsLeft, run[i].threads) <=
            9 * Calls(sched, i) + 2 * (Spurious(sched, i) + Lost(run, sched, i))
  {
    if i == 0 {
      SumNothing(StepsLeft, run[0].threads);
    } else {
      var s, t, a := run[i - 1], sched[i - 1].0, sched[i - 1].1;
      assert StepOk(s, sched[i - 1], run[i]);
      StepsBounded(run, sched, i - 1);
      InvRun(run, sched, i - 1);
      InvSane(s, t);
      StepCosts(s, t, a);
      StepThreads(s, t, a);
      SumUpdate(StepsLeft, s.threads, t, run[i].threads[t]);
    }
  }

  lemma {:induction false} Bounds(run: seq<State>, sched: Schedule, i: nat) returns (lost: nat)
    requires IsRun(run, sched) && Init(run[0]) && TimelyRun(run, sched) && i < |run|
    ensures i <= 9 * Calls(sched, i) + 2 * (Spurious(sched, i) + lost)
    ensures lost <= Times(|run[0].threads|, 2 * Calls(sched, i))
  {
    lost := Lost(run, sched, i);
    StepsBounded(run, sched, i);
    WinsBounded(run, sched, i);
    LostTimes(run, sched, i, 2 * Calls(sched, i));
  }

  // However the threads are interleaved, a run of n threads has at most 9 + 4n steps for
  // each call begun, and 2 for each exchange that failed for no reason.
  lemma {:induction false} LockFree(run: seq<State>, sched: Schedule, i: nat)
    requires IsRun(run, sched) && Init(run[0]) && TimelyRun(run, sched) && i < |run|
    ensures i <= (9 + 4 * |run[0].threads|) * Calls(sched, i) + 2 * Spurious(sched, i)
  {
    var lost := Bounds(run, sched, i);
    Together(i, |run[0].threads|, Calls(sched, i), Spurious(sched, i), lost);
  }

  lemma {:induction false} Together(steps: nat, n: nat, calls: nat, spurious: nat, lost: nat)
    requires steps <= 9 * calls + 2 * (spurious + lost) && lost <= Times(n, 2 * calls)
    ensures steps <= (9 + 4 * n) * calls + 2 * spurious
  {
    TimesIs(n, 2 * calls);
  }
}
