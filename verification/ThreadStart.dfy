/** One thread for every CPU of every group, and how many meet at the barrier. */
module ThreadStart {

  import opened CpuSet

  type Mask = seq<bool>

  ghost function CpusFrom(mask: Mask, i: nat): set<nat> { set k: nat | i <= k < |mask| && mask[k] }

  ghost function CpusOf(mask: Mask): set<nat> { CpusFrom(mask, 0) }

  // ---- The test mask and the barrier's count ----

  ghost function Union(groups: seq<Mask>): set<nat> {
    if groups == [] then {} else Union(groups[..|groups| - 1]) + CpusOf(groups[|groups| - 1])
  }

  // CPU_OR over the groups, then CPU_AND with what is available.
  method TestMask(groups: seq<Mask>, avail: Mask) returns (mask: array<bool>)
    requires |avail| == CPU_SETSIZE && forall g :: 0 <= g < |groups| ==> |groups[g]| == CPU_SETSIZE
    ensures fresh(mask) && CpusOf(mask[..]) == Union(groups) * CpusOf(avail)
  {
    mask := new bool[CPU_SETSIZE](_ => false);
    assert CpusOf(mask[..]) == Union(groups[..0]);
    var g := 0;
    while g < |groups|
      invariant g <= |groups| && mask.Length == CPU_SETSIZE && CpusOf(mask[..]) == Union(groups[..g])
    {
      Join(mask, groups[g]);
      assert groups[..g + 1][..g] == groups[..g];
      g := g + 1;
    }
    assert groups[..g] == groups;
    Meet(mask, avail);
  }

  method Join(mask: array<bool>, other: Mask)
    requires mask.Length == |other|
    modifies mask
    ensures CpusOf(mask[..]) == old(CpusOf(mask[..])) + CpusOf(other)
  {
    for i := 0 to mask.Length
      invariant forall k :: 0 <= k < mask.Length ==> mask[k] == (old(mask[k]) || (k < i && other[k]))
    {
      mask[i] := mask[i] || other[i];
    }
  }

  method Meet(mask: array<bool>, other: Mask)
    requires mask.Length == |other|
    modifies mask
    ensures CpusOf(mask[..]) == old(CpusOf(mask[..])) * CpusOf(other)
  {
    for i := 0 to mask.Length
      invariant forall k :: 0 <= k < mask.Length ==> mask[k] == (old(mask[k]) && (k < i ==> other[k]))
    {
      mask[i] := mask[i] && other[i];
    }
  }

  // tdmax: the group sizes together.
  ghost function Sizes(groups: seq<Mask>): nat {
    if groups == [] then 0 else Sizes(groups[..|groups| - 1]) + |CpusOf(groups[|groups| - 1])|
  }

  ghost predicate Disjoint(groups: seq<Mask>) {
    forall i, j :: 0 <= i < j < |groups| ==> CpusOf(groups[i]) !! CpusOf(groups[j])
  }

  ghost predicate Within(groups: seq<Mask>, avail: set<nat>) {
    forall i :: 0 <= i < |groups| ==> CpusOf(groups[i]) <= avail
  }

  lemma {:induction false} UnionHolds(groups: seq<Mask>, cpu: nat)
    ensures cpu in Union(groups) <==> exists i :: 0 <= i < |groups| && cpu in CpusOf(groups[i])
  {
    if groups != [] {
      var last, front := |groups| - 1, groups[..|groups| - 1];
      UnionHolds(front, cpu);
      if cpu in Union(front) {
        var i :| 0 <= i < |front| && cpu in CpusOf(front[i]);
        assert cpu in CpusOf(groups[i]);
      }
    }
  }

  lemma {:induction false} SizeOfUnion(a: set<nat>, b: set<nat>)
    ensures |a + b| == |a| + |b| - |a * b|
  {
    assert a + b == a + (b - a) && b == (b - a) + (a * b);
  }

  lemma {:induction false} SubsetSize(a: set<nat>, b: set<nat>)
    ensures |a * b| <= |a| && (|a * b| == |a| <==> a <= b)
  {
    assert a == (a * b) + (a - b);
    if |a - b| == 0 { assert a - b == {}; }
    if a <= b { assert a * b == a; }
  }

  // The barrier is made for as many as are started (and the leader) exactly if no CPU
  // is in two groups and all are available; otherwise it is made for too few.
  lemma {:induction false} BarrierFitsIff(groups: seq<Mask>, avail: set<nat>)
    ensures |Union(groups) * avail| <= Sizes(groups)
    ensures |Union(groups) * avail| == Sizes(groups) <==> Disjoint(groups) && Within(groups, avail)
  {
    if groups != [] {
      var n, front := |groups| - 1, groups[..|groups| - 1];
      var u, g := Union(front) * avail, CpusOf(groups[n]);
      BarrierFitsIff(front, avail);
      assert Union(groups) * avail == u + g * avail;
      SizeOfUnion(u, g * avail);
      SubsetSize(g, avail);
      SplitLast(groups, avail);
      if u * (g * avail) == {} { assert |u * (g * avail)| == 0; }
      if |u * (g * avail)| == 0 { assert u * (g * avail) == {}; }
    }
  }

  lemma {:induction false} SplitLast(groups: seq<Mask>, avail: set<nat>)
    requires groups != []
    ensures var n, front := |groups| - 1, groups[..|groups| - 1];
            var g := CpusOf(groups[n]);
            Disjoint(groups) && Within(groups, avail) <==>
            && Disjoint(front) && Within(front, avail) && g <= avail
            && (Union(front) * avail) * (g * avail) == {}
  {
    var n, front := |groups| - 1, groups[..|groups| - 1];
    var g := CpusOf(groups[n]);
    var meet := (Union(front) * avail) * (g * avail);
    forall cpu ensures cpu in meet <==> cpu in avail && cpu in g &&
                                        exists i :: 0 <= i < n && cpu in CpusOf(groups[i])
    {
      UnionHolds(front, cpu);
      assert forall i :: 0 <= i < n ==> front[i] == groups[i];
    }
    if Disjoint(groups) && Within(groups, avail) {
      forall cpu ensures cpu !in meet { }
      assert forall i :: 0 <= i < n ==> front[i] == groups[i];
    }
    if Disjoint(front) && Within(front, avail) && g <= avail && meet == {} {
      forall i | 0 <= i < n ensures CpusOf(groups[i]) !! g {
        forall cpu | cpu in CpusOf(groups[i]) ensures cpu !in g { assert cpu !in meet; }
      }
      forall i, j | 0 <= i < j < |groups| ensures CpusOf(groups[i]) !! CpusOf(groups[j]) {
        if j < n { assert CpusOf(front[i]) !! CpusOf(front[j]); }
      }
      forall i | 0 <= i < |groups| ensures CpusOf(groups[i]) <= avail {
        if i < n { assert CpusOf(front[i]) <= avail; }
      }
    }
  }

  lemma {:induction false} CpusCount(mask: Mask, i: nat)
    ensures |Cpus(mask, i)| == |CpusFrom(mask, i)|
    decreases |mask| - i
  {
    if i < |mask| {
      CpusCount(mask, i + 1);
      var rest := CpusFrom(mask, i + 1);
      if mask[i] {
        assert CpusFrom(mask, i) == rest + {i};
        assert i !in rest;
      } else {
        assert CpusFrom(mask, i) == rest;
      }
    } else {
      assert CpusFrom(mask, i) == {};
    }
  }

  // CPU_COUNT, from the top.
  method CpuCount(mask: Mask) returns (n: nat)
    ensures n == |CpusOf(mask)|
  {
    n := 0;
    for i := |mask| downto 0
      invariant n == |Cpus(mask, i)|
    {
      if mask[i] { n := n + 1; }
    }
    CpusCount(mask, 0);
  }

  // How many the barrier is made for, 0 where no CPU is left to test and the program ends.
  method BarrierCount(groups: seq<Mask>, avail: Mask) returns (count: nat)
    requires |avail| == CPU_SETSIZE && forall g :: 0 <= g < |groups| ==> |groups[g]| == CPU_SETSIZE
    ensures count == 0 <==> Union(groups) * CpusOf(avail) == {}
    ensures count > 0 ==> count == |Union(groups) * CpusOf(avail)| + 1 <= Sizes(groups) + 1
    ensures count > 0 ==> (count == Sizes(groups) + 1 <==> Disjoint(groups) && Within(groups, CpusOf(avail)))
  {
    var mask := TestMask(groups, avail);
    var n := CpuCount(mask[..]);
    BarrierFitsIff(groups, CpusOf(avail));
    count := if n < 1 then 0 else n + 1;
  }

  method ThreadMax(groups: seq<Mask>) returns (tdmax: nat)
    ensures tdmax == Sizes(groups)
  {
    tdmax := 0;
    assert groups[..0] == [];
    for i := 0 to |groups|
      invariant tdmax == Sizes(groups[..i])
    {
      assert groups[..i + 1][..i] == groups[..i];
      var n := CpuCount(groups[i]);
      tdmax := tdmax + n;
    }
    assert groups[..|groups|] == groups;
  }

  // ---- Starting the threads ----

  // Thread number, group and CPU.
  datatype Thread = Thread(tdnum: nat, tdgrp: nat, cpu: nat)

  // The number after the lowest CPU left, or 0.
  method Ffs(mask: array<bool>) returns (cpu: nat)
    ensures cpu <= mask.Length
    ensures forall i :: 0 <= i < (if cpu == 0 then mask.Length else cpu - 1) ==> !mask[..][i]
    ensures cpu > 0 ==> mask[..][cpu - 1]
  {
    var i := 0;
    while i < mask.Length
      invariant i <= mask.Length && forall k :: 0 <= k < i ==> !mask[k]
    {
      if mask[i] { return i + 1; }
      i := i + 1;
    }
    cpu := 0;
  }

  lemma {:induction false} CpusRise(mask: Mask, i: nat)
    ensures forall a :: 0 <= a < |Cpus(mask, i)| ==> i <= Cpus(mask, i)[a]
    ensures forall a, b :: 0 <= a < b < |Cpus(mask, i)| ==> Cpus(mask, i)[a] < Cpus(mask, i)[b]
    decreases |mask| - i
  {
    if i < |mask| { CpusRise(mask, i + 1); }
  }

  ghost function ThreadsOf(group: nat, cpus: seq<nat>, first: nat): (threads: seq<Thread>)
    ensures |threads| == |cpus|
    ensures forall k :: 0 <= k < |cpus| ==> threads[k] == Thread(first + k, group, cpus[k])
  {
    seq(|cpus|, k requires 0 <= k < |cpus| => Thread(first + k, group, cpus[k]))
  }

  ghost function AllThreads(groups: seq<Mask>): seq<Thread> {
    if groups == [] then []
    else
      var front := AllThreads(groups[..|groups| - 1]);
      front + ThreadsOf(|groups| - 1, Cpus(groups[|groups| - 1], 0), |front|)
  }

  // As many threads as the barrier's tdmax counts, numbered in order.
  lemma {:induction false} AllThreadsCount(groups: seq<Mask>)
    ensures |AllThreads(groups)| == Sizes(groups)
    ensures forall k :: 0 <= k < |AllThreads(groups)| ==> AllThreads(groups)[k].tdnum == k
  {
    if groups != [] {
      var last := groups[|groups| - 1];
      AllThreadsCount(groups[..|groups| - 1]);
      CpusCount(last, 0);
    }
  }

  ghost predicate SameJob(a: Thread, b: Thread) { a.tdgrp == b.tdgrp && a.cpu == b.cpu }

  lemma {:induction false} ThreadAt(groups: seq<Mask>, k: nat)
    requires groups != [] && k < |AllThreads(groups)|
    ensures var front, n := groups[..|groups| - 1], |groups| - 1;
            var m := |AllThreads(front)|;
            if k < m then AllThreads(groups)[k] == AllThreads(front)[k]
            else k - m < |Cpus(groups[n], 0)| && AllThreads(groups)[k] == Thread(k, n, Cpus(groups[n], 0)[k - m])
  {
  }

  // Every thread runs for a CPU of its group.
  lemma {:induction false} ThreadsHaveCpus(groups: seq<Mask>, k: nat)
    requires k < |AllThreads(groups)|
    ensures var t := AllThreads(groups)[k]; t.tdgrp < |groups| && t.cpu in CpusOf(groups[t.tdgrp])
  {
    ThreadAt(groups, k);
    var front := groups[..|groups| - 1];
    if k < |AllThreads(front)| {
      ThreadsHaveCpus(front, k);
    } else {
      CpusHold(groups[|groups| - 1], 0, AllThreads(groups)[k].cpu);
    }
  }

  // Every CPU of every group has a thread.
  lemma {:induction false} CpusHaveThreads(groups: seq<Mask>, g: nat, cpu: nat) returns (k: nat)
    requires g < |groups| && cpu in CpusOf(groups[g])
    ensures k < |AllThreads(groups)| && AllThreads(groups)[k] == Thread(k, g, cpu)
    decreases |groups|
  {
    var n, front := |groups| - 1, groups[..|groups| - 1];
    if g < n {
      k := CpusHaveThreads(front, g, cpu);
    } else {
      CpusHold(groups[n], 0, cpu);
      var c :| 0 <= c < |Cpus(groups[n], 0)| && Cpus(groups[n], 0)[c] == cpu;
      k := |AllThreads(front)| + c;
    }
    ThreadAt(groups, k);
  }

  // And no more than one.
  lemma {:induction false} ThreadsDiffer(groups: seq<Mask>, k: nat, m: nat)
    requires k < m < |AllThreads(groups)|
    ensures !SameJob(AllThreads(groups)[k], AllThreads(groups)[m])
  {
    var n, front := |groups| - 1, groups[..|groups| - 1];
    var before := |AllThreads(front)|;
    ThreadAt(groups, k);
    ThreadAt(groups, m);
    if m < before {
      ThreadsDiffer(front, k, m);
    } else if k < before {
      ThreadsHaveCpus(front, k);
    } else {
      CpusRise(groups[n], 0);
      assert Cpus(groups[n], 0)[k - before] < Cpus(groups[n], 0)[m - before];
    }
  }

  // What is left of a group once its CPUs below `from` have their threads.
  ghost predicate Left(gavail: seq<bool>, gmask: Mask, from: nat) {
    |gavail| == |gmask| && forall i :: 0 <= i < |gmask| ==> gavail[i] == (gmask[i] && i >= from)
  }

  // `cpu` is what CPU_FFS makes of the CPUs left from `from` on.
  ghost predicate Found(gavail: seq<bool>, gmask: Mask, from: nat, cpu: nat) {
    && from <= |gmask| && (cpu == 0 || from < cpu <= |gmask|)
    && Left(gavail, gmask, from) && (cpu > 0 ==> Left(gavail[cpu - 1 := false], gmask, cpu))
    && Cpus(gmask, from) == (if cpu == 0 then [] else [cpu - 1] + Cpus(gmask, cpu))
  }

  method NextCpu(gavail: array<bool>, ghost gmask: Mask, ghost from: nat) returns (cpu: nat)
    requires Left(gavail[..], gmask, from) && from <= |gmask|
    ensures Found(gavail[..], gmask, from, cpu)
  {
    cpu := Ffs(gavail);
    ghost var left := gavail[..];
    forall i | from <= i < (if cpu == 0 then |gmask| else cpu - 1) ensures !gmask[i] { assert !left[i]; }
    CpusSkip(gmask, from, cpu);
  }

  // CPU_CLR, and on to the next.
  method ClearCpu(gavail: array<bool>, ghost gmask: Mask, ghost from: nat, cpu: nat) returns (next: nat)
    requires Found(gavail[..], gmask, from, cpu) && cpu != 0
    modifies gavail
    ensures Found(gavail[..], gmask, cpu, next)
  {
    ghost var left := gavail[..];
    gavail[cpu - 1] := false;
    assert gavail[..] == left[cpu - 1 := false];
    next := NextCpu(gavail, gmask, cpu);
  }

  // The threads started and those to come make up the group's.
  ghost predicate Begun(started: seq<Thread>, tdgrp: nat, rest: seq<nat>, cpus: seq<nat>, tdcnt: nat) {
    started + ThreadsOf(tdgrp, rest, tdcnt + |started|) == ThreadsOf(tdgrp, cpus, tdcnt)
  }

  lemma {:induction false} OneMore(started: seq<Thread>, tdgrp: nat, cpu: nat, rest: seq<nat>, cpus: seq<nat>,
                                     tdcnt: nat)
    requires Begun(started, tdgrp, [cpu] + rest, cpus, tdcnt)
    ensures Begun(started + [Thread(tdcnt + |started|, tdgrp, cpu)], tdgrp, rest, cpus, tdcnt)
  {
    var n := tdcnt + |started|;
    assert ThreadsOf(tdgrp, [cpu] + rest, n) == [Thread(n, tdgrp, cpu)] + ThreadsOf(tdgrp, rest, n + 1);
  }

  method StartGroup(gmask: Mask, tdgrp: nat, tdcnt: nat) returns (started: seq<Thread>)
    ensures started == ThreadsOf(tdgrp, Cpus(gmask, 0), tdcnt)
  {
    var gavail := new bool[|gmask|](i requires 0 <= i < |gmask| => gmask[i]);
    assert gavail[..] == gmask;
    started := [];
    ghost var from: nat := 0;
    var cpu := NextCpu(gavail, gmask, from);
    while cpu != 0
      invariant Found(gavail[..], gmask, from, cpu)
      invariant Begun(started, tdgrp, Cpus(gmask, from), Cpus(gmask, 0), tdcnt)
      decreases |gmask| - from
    {
      BegunMore(gavail[..], gmask, from, cpu, started, tdgrp, tdcnt);
      started := started + [Thread(tdcnt + |started|, tdgrp, cpu - 1)];
      var next := ClearCpu(gavail, gmask, from, cpu);
      from := cpu;
      cpu := next;
    }
    BegunAll(gavail[..], gmask, from, started, tdgrp, tdcnt);
  }

  lemma {:induction false} BegunMore(gavail: seq<bool>, gmask: Mask, from: nat, cpu: nat, started: seq<Thread>,
                                      tdgrp: nat, tdcnt: nat)
    requires Found(gavail, gmask, from, cpu) && cpu != 0
    requires Begun(started, tdgrp, Cpus(gmask, from), Cpus(gmask, 0), tdcnt)
    ensures Begun(started + [Thread(tdcnt + |started|, tdgrp, cpu - 1)], tdgrp, Cpus(gmask, cpu), Cpus(gmask, 0), tdcnt)
    ensures from < cpu <= |gmask|
  {
    OneMore(started, tdgrp, cpu - 1, Cpus(gmask, cpu), Cpus(gmask, 0), tdcnt);
  }

  lemma {:induction false} BegunAll(gavail: seq<bool>, gmask: Mask, from: nat, started: seq<Thread>, tdgrp: nat,
                                     tdcnt: nat)
    requires Found(gavail, gmask, from, 0) && Begun(started, tdgrp, Cpus(gmask, from), Cpus(gmask, 0), tdcnt)
    ensures started == ThreadsOf(tdgrp, Cpus(gmask, 0), tdcnt)
  {
  }

  lemma {:induction false} CpusSkip(mask: Mask, from: nat, cpu: nat)
    requires from <= |mask| && (cpu == 0 || from < cpu <= |mask|)
    requires forall i :: from <= i < (if cpu == 0 then |mask| else cpu - 1) ==> !mask[i]
    requires cpu > 0 ==> mask[cpu - 1]
    ensures Cpus(mask, from) == if cpu == 0 then [] else [cpu - 1] + Cpus(mask, cpu)
    decreases |mask| - from
  {
    if from < |mask| && from != cpu - 1 { CpusSkip(mask, from + 1, cpu); }
  }

  // The loop that starts the threads: tdcnt always comes to tdmax.
  method StartThreads(groups: seq<Mask>) returns (threads: seq<Thread>)
    ensures threads == AllThreads(groups) && |threads| == Sizes(groups)
  {
    threads := [];
    var tdgrp := 0;
    assert groups[..0] == [];
    while tdgrp < |groups|
      invariant tdgrp <= |groups| && threads == AllThreads(groups[..tdgrp])
    {
      var started := StartGroup(groups[tdgrp], tdgrp, |threads|);
      assert groups[..tdgrp + 1][..tdgrp] == groups[..tdgrp];
      threads := threads + started;
      tdgrp := tdgrp + 1;
    }
    assert groups[..tdgrp] == groups;
    AllThreadsCount(groups);
  }
}
