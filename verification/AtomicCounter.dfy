/** One atomic increment per call: the reference for lock+inc+unlock. */
module AtomicCounter {
  import opened Words

  datatype Call = Free | Called | Counted

  datatype Counter = Counter(cnt: nat, calls: seq<Call>)

  datatype Event = Start | End | Inside

  // A call takes effect at one instant between its start and its end, and the
  // instant is a fetch-and-add.
  ghost predicate CounterStep(a: Counter, t: nat, e: Event, a': Counter) {
    && t < |a.calls|
    && match e
       case Start => a.calls[t] == Free && a' == a.(calls := a.calls[t := Called])
       case End => a.calls[t] == Counted && a' == a.(calls := a.calls[t := Free])
       case Inside => a' == a || (a.calls[t] == Called && a' == Counter(Bump(a.cnt), a.calls[t := Counted]))
  }

  ghost predicate IsCounterRun(run: seq<Counter>, evs: seq<(nat, Event)>) {
    && |run| == |evs| + 1
    && forall i :: 0 <= i < |evs| ==> CounterStep(run[i], evs[i].0, evs[i].1, run[i + 1])
  }

  // k increments on top of c.
  function Plus(c: nat, k: nat): nat { if k == 0 then c else Bump(Plus(c, k - 1)) }

  lemma {:induction false} OneMore(x: nat)
    ensures Bump(x % WORD) == (x + 1) % WORD
  {
  }

  // So k increments of a counter of 64 bits add k modulo 2^64.
  lemma {:induction false} PlusWraps(c: nat, k: nat)
    requires c < WORD
    ensures Plus(c, k) == (c + k) % 0x1_0000_0000_0000_0000
  {
    if k > 0 {
      PlusWraps(c, k - 1);
      OneMore(c + k - 1);
    }
  }

  function Completed(evs: seq<(nat, Event)>): nat {
    if evs == [] then 0 else Completed(evs[..|evs| - 1]) + (if evs[|evs| - 1].1.End? then 1 else 0)
  }

  // Calls that have counted but not returned.
  function Returning(calls: seq<Call>): nat {
    if calls == [] then 0 else (if calls[0].Counted? then 1 else 0) + Returning(calls[1..])
  }

  lemma {:induction false} ReturningUpdate(calls: seq<Call>, t: nat, c: Call)
    requires t < |calls|
    ensures Returning(calls[t := c]) + (if calls[t].Counted? then 1 else 0)
         == Returning(calls) + (if c.Counted? then 1 else 0)
  {
    if t == 0 {
      assert calls[t := c][1..] == calls[1..];
    } else {
      assert calls[t := c][1..] == calls[1..][t - 1 := c];
      ReturningUpdate(calls[1..], t - 1, c);
    }
  }

  lemma {:induction false} NoneReturning(calls: seq<Call>)
    requires forall t :: 0 <= t < |calls| ==> calls[t].Free?
    ensures Returning(calls) == 0
  {
    if calls != [] { NoneReturning(calls[1..]); }
  }

  // The counter has grown by one for every completed call, and for every call that
  // is about to return.
  lemma {:induction false} CountIsExact(run: seq<Counter>, evs: seq<(nat, Event)>, i: nat)
    requires IsCounterRun(run, evs) && i < |run|
    requires forall t :: 0 <= t < |run[0].calls| ==> run[0].calls[t].Free?
    ensures run[i].cnt == Plus(run[0].cnt, Completed(evs[..i]) + Returning(run[i].calls))
  {
    if i == 0 {
      NoneReturning(run[0].calls);
    } else {
      CountIsExact(run, evs, i - 1);
      var a, a', t := run[i - 1], run[i], evs[i - 1].0;
      assert CounterStep(a, t, evs[i - 1].1, a');
      assert evs[..i][..i - 1] == evs[..i - 1];
      if a' != a { ReturningUpdate(a.calls, t, a'.calls[t]); }
    }
  }
}
