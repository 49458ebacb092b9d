/** Building runs of a step relation. */
module Runs {

  // The schedule leads from s to s' by steps that are all ok.
  ghost predicate Leads<S(!new), E(!new)>(ok: (S, E, S) -> bool, s: S, sched: seq<E>, s': S) {
    exists run: seq<S> :: Is(ok, run, sched) && run[0] == s && run[|sched|] == s'
  }

  ghost predicate Is<S(!new), E(!new)>(ok: (S, E, S) -> bool, run: seq<S>, sched: seq<E>) {
    |run| == |sched| + 1 && forall i :: 0 <= i < |sched| ==> ok(run[i], sched[i], run[i + 1])
  }

  lemma {:induction false} Stay<S(!new), E(!new)>(ok: (S, E, S) -> bool, s: S)
    ensures Leads(ok, s, [], s)
  {
    assert Is<S, E>(ok, [s], []);
  }

  lemma {:induction false} Then<S(!new), E(!new)>(ok: (S, E, S) -> bool, s: S, sched: seq<E>, m: S, e: E, s': S)
    requires Leads(ok, s, sched, m) && ok(m, e, s')
    ensures Leads(ok, s, sched + [e], s')
  {
    var run: seq<S> :| Is(ok, run, sched) && run[0] == s && run[|sched|] == m;
    var run', sched' := run + [s'], sched + [e];
    forall i | 0 <= i < |sched'| ensures ok(run'[i], sched'[i], run'[i + 1]) {
      if i < |sched| { assert ok(run[i], sched[i], run[i + 1]); }
    }
    assert Is(ok, run', sched');
  }

  lemma {:induction false} Concat<S(!new), E(!new)>(ok: (S, E, S) -> bool, s: S, a: seq<E>, m: S, b: seq<E>, s': S)
    requires Leads(ok, s, a, m) && Leads(ok, m, b, s')
    ensures Leads(ok, s, a + b, s')
  {
    var ra: seq<S> :| Is(ok, ra, a) && ra[0] == s && ra[|a|] == m;
    var rb: seq<S> :| Is(ok, rb, b) && rb[0] == m && rb[|b|] == s';
    var run, sched := ra + rb[1..], a + b;
    forall i | 0 <= i < |sched| ensures ok(run[i], sched[i], run[i + 1]) {
      if i < |a| {
        assert ok(ra[i], a[i], ra[i + 1]);
      } else {
        assert ok(rb[i - |a|], b[i - |a|], rb[i - |a| + 1]);
      }
    }
    assert Is(ok, run, sched);
  }

  // What every step keeps holds in every state of a run.
  lemma {:induction false} Invariant<S(!new), E(!new)>(ok: (S, E, S) -> bool, inv: S -> bool, run: seq<S>,
                                                       sched: seq<E>, i: nat)
    requires Is(ok, run, sched) && i < |run| && inv(run[0])
    requires forall s, e, s' :: inv(s) && ok(s, e, s') ==> inv(s')
    ensures inv(run[i])
  {
    if i > 0 { Invariant(ok, inv, run, sched, i - 1); }
  }
}
