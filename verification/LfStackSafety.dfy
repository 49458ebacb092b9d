/** What the invariant means for a caller, over every run. */
module LfStackSafety {
  import opened LfStack
  import opened LfStackInvariant
  import opened Words

  // ---- No exchange succeeds on a head that moved in between (no ABA) ----

  lemma {:induction false} HeadsStill(run: seq<State>, sched: Schedule, j: nat, i: nat)
    requires IsRun(run, sched) && j <= i < |run|
    ensures run[j].stackX == run[i].stackX ==> run[j].stack == run[i].stack && run[j].stackChain == run[i].stackChain
    ensures run[j].cacheX == run[i].cacheX ==> run[j].cache == run[i].cache && run[j].cacheChain == run[i].cacheChain
  {
    if j < i {
      HeadsStill(run, sched, j, i - 1);
      ExchangesGrow(run, sched, j, i - 1);
      assert StepOk(run[i - 1], sched[i - 1], run[i]);
    }
  }

  // The step is an exchange on the stack, or on the cache, that succeeds.
  ghost predicate WinsStack(s: State, e: (nat, Action)) {
    && e.0 < |s.threads| && e.1 == Run(false)
    && (s.threads[e.0].PopStackCas? || s.threads[e.0].PushStackCas?)
    && s.stack == s.threads[e.0].orig.head
  }

  ghost predicate WinsCache(s: State, e: (nat, Action)) {
    && e.0 < |s.threads| && e.1 == Run(false)
    && (s.threads[e.0].PushCacheCas? || s.threads[e.0].PopCacheCas?)
    && s.cache == s.threads[e.0].orig.head
  }

  // Thread t held the snapshot in state j and wins the exchange on the stack with
  // it in state i: in between, nobody moved that head, and a pop installs the
  // node that really comes next.
  lemma {:induction false} StackExchangeSawNoMove(run: seq<State>, sched: Schedule, j: nat, i: nat, k: nat)
    requires IsRun(run, sched) && Init(run[0]) && TimelyRun(run, sched) && j <= k <= i < |sched|
    requires WinsStack(run[i], sched[i])
    requires sched[i].0 < |run[j].threads| && HasStackOrig(run[j].threads[sched[i].0])
    requires run[j].threads[sched[i].0].orig == run[i].threads[sched[i].0].orig
    ensures run[k].stack == run[i].stack && run[k].stackChain == run[i].stackChain
    ensures run[i].threads[sched[i].0].PopStackCas? ==>
      |run[i].stackChain| > 0 && run[i].threads[sched[i].0].next == Link(run[i].stackChain, 1)
  {
    var s := run[i];
    var t := sched[i].0;
    var th := s.threads[t];
    assert StepOk(s, sched[i], run[i + 1]) && TimelyStep(s, sched[i]);
    InvRun(run, sched, i);
    InvRun(run, sched, j);
    assert ThreadOk(run[j], run[j].threads[t]);
    ExchangesGrow(run, sched, j, k);
    ExchangesGrow(run, sched, k, i);
    if th.PopStackCas? {
      TakeStackFresh(s, t, th.orig, th.next);
      assert LinkedAt(s.next, s.stackChain, 0);
    } else {
      GiveStackFresh(s, t, th.node, th.orig);
    }
    HeadsStill(run, sched, k, i);
  }

  // The same for the node cache.
  lemma {:induction false} CacheExchangeSawNoMove(run: seq<State>, sched: Schedule, j: nat, i: nat, k: nat)
    requires IsRun(run, sched) && Init(run[0]) && TimelyRun(run, sched) && j <= k <= i < |sched|
    requires WinsCache(run[i], sched[i])
    requires sched[i].0 < |run[j].threads| && HasCacheOrig(run[j].threads[sched[i].0])
    requires run[j].threads[sched[i].0].orig == run[i].threads[sched[i].0].orig
    ensures run[k].cache == run[i].cache && run[k].cacheChain == run[i].cacheChain
    ensures run[i].threads[sched[i].0].PushCacheCas? ==>
      |run[i].cacheChain| > 0 && run[i].threads[sched[i].0].next == Link(run[i].cacheChain, 1)
  {
    var s := run[i];
    var t := sched[i].0;
    var th := s.threads[t];
    assert StepOk(s, sched[i], run[i + 1]) && TimelyStep(s, sched[i]);
    InvRun(run, sched, i);
    InvRun(run, sched, j);
    assert ThreadOk(run[j], run[j].threads[t]);
    ExchangesGrow(run, sched, j, k);
    ExchangesGrow(run, sched, k, i);
    if th.PushCacheCas? {
      TakeCacheFresh(s, t, th.data, th.orig, th.next);
      assert LinkedAt(s.next, s.cacheChain, 0);
    } else {
      GiveCacheFresh(s, t, th.node, th.data, th.orig);
    }
    HeadsStill(run, sched, k, i);
  }

  // ---- Every node handed out is in exactly one place ----

  function Elems(c: seq<nat>): set<nat> { set n | n in c }

  lemma {:induction false} ElemsCount(c: seq<nat>)
    requires NoDup(c)
    ensures |Elems(c)| == |c|
  {
    if c != [] {
      ElemsCount(c[1..]);
      assert c == [c[0]] + c[1..];
      assert Elems(c) == {c[0]} + Elems(c[1..]);
    }
  }

  function Owned(threads: seq<Thread>): set<nat> {
    if threads == [] then {} else (if Owns(threads[0]) then {threads[0].node} else {}) + Owned(threads[1..])
  }

  lemma {:induction false} OwnedMember(threads: seq<Thread>, n: nat)
    ensures n in Owned(threads) <==> exists t: nat :: t < |threads| && Owns(threads[t]) && threads[t].node == n
  {
    if threads != [] {
      OwnedMember(threads[1..], n);
      if n in Owned(threads[1..]) {
        var t: nat :| t < |threads[1..]| && Owns(threads[1..][t]) && threads[1..][t].node == n;
        assert threads[t + 1] == threads[1..][t];
      }
      if t: nat :| t < |threads| && Owns(threads[t]) && threads[t].node == n && t > 0 {
        assert threads[1..][t - 1] == threads[t];
      }
    }
  }

  lemma {:induction false} OwnedCount(threads: seq<Thread>)
    requires forall t: nat, u: nat :: t < u < |threads| ==> Apart(threads[t], threads[u])
    ensures |Owned(threads)| == Owners(threads)
  {
    if threads != [] {
      var rest := threads[1..];
      forall t: nat, u: nat | t < u < |rest| ensures Apart(rest[t], rest[u]) {
        assert Apart(threads[t + 1], threads[u + 1]);
      }
      OwnedCount(rest);
      if Owns(threads[0]) {
        OwnedMember(rest, threads[0].node);
        forall t: nat | t < |rest| ensures Apart(threads[0], rest[t]) {
          assert Apart(threads[0], threads[t + 1]);
        }
      }
    }
  }

  function Below(n: nat): (r: set<nat>)
    ensures forall i: nat :: i in r <==> i < n
  {
    if n == 0 then {} else Below(n - 1) + {n - 1}
  }

  lemma {:induction false} BelowCount(n: nat)
    ensures |Below(n)| == n
  {
    if n > 0 {
      BelowCount(n - 1);
    }
  }

  lemma {:induction false} SubsetOfSameSize(a: set<nat>, b: set<nat>)
    requires a <= b && |a| == |b|
    ensures a == b
  {
    assert |b - a| == |b| - |a|;
  }

  // The stack, the cache and the threads in the middle of a call share out the
  // nodes handed out: each is in exactly one of the three, and on one thread.
  lemma {:induction false} NodesPartitioned(s: State)
    requires Inv(s)
    ensures Elems(s.stackChain) + Elems(s.cacheChain) + Owned(s.threads) == Below(Handed(s))
    ensures Elems(s.stackChain) !! Elems(s.cacheChain) !! Owned(s.threads)
    ensures forall t: nat, u: nat :: t < u < |s.threads| ==> Apart(s.threads[t], s.threads[u])
  {
    var a, b, c := Elems(s.stackChain), Elems(s.cacheChain), Owned(s.threads);
    forall n | n in c ensures n < Handed(s) && n !in a && n !in b {
      OwnedMember(s.threads, n);
      var t: nat :| t < |s.threads| && Owns(s.threads[t]) && s.threads[t].node == n;
      assert OwnerOk(s, s.threads[t]);
    }
    ElemsCount(s.stackChain);
    ElemsCount(s.cacheChain);
    OwnedCount(s.threads);
    BelowCount(Handed(s));
    assert |a + b + c| == |a| + |b| + |c|;
    SubsetOfSameSize(a + b + c, Below(Handed(s)));
  }

  // ---- No thread follows a node whose next was never written, or leaves nodev ----

  lemma {:induction false} ReadsAreSafe(run: seq<State>, sched: Schedule, i: nat)
    requires IsRun(run, sched) && Init(run[0]) && TimelyRun(run, sched) && i < |sched|
    requires sched[i].0 < |run[i].threads| && sched[i].1.Run?
    ensures var th := run[i].threads[sched[i].0];
      && ((th.PushTop? || th.PopTop?) && th.orig.head.ptr.Node? ==>
            th.orig.head.ptr.index in run[i].written && th.orig.head.ptr.index < run[i].nodemax)
      && (Owns(th) ==> th.node < run[i].nodemax)
  {
    InvRun(run, sched, i);
    var th := run[i].threads[sched[i].0];
    assert ThreadOk(run[i], th) && OwnerOk(run[i], th);
  }

  // A push that fails found every embedded node handed out.
  lemma {:induction false} PushFailsOnlyWhenExhausted(run: seq<State>, sched: Schedule, i: nat, t: nat)
    requires IsRun(run, sched) && Init(run[0]) && TimelyRun(run, sched) && i < |run|
    requires t < |run[i].threads| && run[i].threads[t] == PushDone(false)
    ensures Handed(run[i]) == run[i].nodemax
  {
    InvRun(run, sched, i);
    assert ThreadOk(run[i], run[i].threads[t]);
  }
}
