/** The ticket spin lock around an increment: subr_ticket_spin.

    A thread takes a ticket with a fetch-and-add on `head` and spins until `tail`
    shows its number; unlocking increments `tail`.  Both counters are 64 bits wide
    and wrap, and the increment of `cnt` is a separate read and write. */
module TicketLock {
  import opened Words
  import opened AtomicCounter
  import R = Runs

  // `turn` is history: the number of tickets taken before this one, without wrap.
  datatype Thread =
    | Idle
    | Enter
    | Check(ticket: nat, turn: nat)  // the outer loop, load acquire
    | Spin(ticket: nat, turn: nat)   // the inner loop, load relaxed
    | Locked(turn: nat)
    | Loaded(turn: nat, val: nat)
    | Stored(turn: nat)
    | Done

  // `taken` and `released` are history: how often head and tail were incremented.
  datatype State = State(head: nat, tail: nat, cnt: nat, threads: seq<Thread>, taken: nat, released: nat)

  datatype Action = CallSpin | Run | Return

  ghost predicate Enabled(s: State, t: nat, a: Action) {
    t < |s.threads|
    && match a
       case CallSpin => s.threads[t].Idle?
       case Return => s.threads[t].Done?
       case Run => !s.threads[t].Idle? && !s.threads[t].Done?
  }

  function Goto(s: State, t: nat, pc: Thread): State
    requires t < |s.threads|
  {
    s.(threads := s.threads[t := pc])
  }

  function Next(s: State, t: nat, a: Action): State
    requires t < |s.threads|
  {
    match a
    case CallSpin => Goto(s, t, Enter)
    case Return => Goto(s, t, Idle)
    case Run =>
      match s.threads[t]
      case Enter => Goto(s, t, Check(s.head, s.taken)).(head := Bump(s.head), taken := s.taken + 1)
      case Check(k, n) => Goto(s, t, if s.tail == k then Locked(n) else Spin(k, n))
      case Spin(k, n) => Goto(s, t, if s.tail == k then Check(k, n) else Spin(k, n))
      case Locked(n) => Goto(s, t, Loaded(n, s.cnt))
      case Loaded(n, v) => Goto(s, t, Stored(n)).(cnt := Bump(v))
      case Stored(_) => Goto(s, t, Done).(tail := Bump(s.tail), released := s.released + 1)
      case _ => s
  }

  ghost predicate StepOk(s: State, e: (nat, Action), s': State) {
    Enabled(s, e.0, e.1) && s' == Next(s, e.0, e.1)
  }

  type Schedule = seq<(nat, Action)>

  ghost predicate IsRun(run: seq<State>, sched: Schedule) {
    |run| == |sched| + 1 && forall i :: 0 <= i < |sched| ==> StepOk(run[i], sched[i], run[i + 1])
  }

  function Init(n: nat, cnt: nat): State {
    State(0, 0, cnt, seq(n, _ => Idle), 0, 0)
  }

  // ---- The invariant, for at most 2^64 threads ----

  predicate Holds(th: Thread) { th.Locked? || th.Loaded? || th.Stored? }

  predicate Waits(th: Thread) { th.Check? || th.Spin? }

  predicate HasTicket(th: Thread) { Holds(th) || Waits(th) }

  function Tickets(threads: seq<Thread>): nat {
    if threads == [] then 0 else (if HasTicket(threads[0]) then 1 else 0) + Tickets(threads[1..])
  }

  lemma {:induction false} TicketsUpdate(threads: seq<Thread>, t: nat, th: Thread)
    requires t < |threads|
    ensures Tickets(threads[t := th]) + (if HasTicket(threads[t]) then 1 else 0)
         == Tickets(threads) + (if HasTicket(th) then 1 else 0)
  {
    if t == 0 {
      assert threads[t := th][1..] == threads[1..];
    } else {
      assert threads[t := th][1..] == threads[1..][t - 1 := th];
      TicketsUpdate(threads[1..], t - 1, th);
    }
  }

  lemma {:induction false} TicketsBound(threads: seq<Thread>)
    ensures Tickets(threads) <= |threads|
  {
    if threads != [] { TicketsBound(threads[1..]); }
  }

  lemma {:induction false} NoTickets(threads: seq<Thread>)
    requires forall t: nat :: t < |threads| ==> !HasTicket(threads[t])
    ensures Tickets(threads) == 0
  {
    if threads != [] { NoTickets(threads[1..]); }
  }

  ghost predicate ThreadOk(s: State, th: Thread) {
    && (HasTicket(th) ==> s.released <= th.turn < s.taken)
    && (Waits(th) ==> th.ticket == Gen(th.turn))
    && (Holds(th) ==> th.turn == s.released)
    && (th.Loaded? ==> th.val == s.cnt)
  }

  ghost predicate Apart(a: Thread, b: Thread) { HasTicket(a) && HasTicket(b) ==> a.turn != b.turn }

  ghost predicate Inv(s: State) {
    && s.head == Gen(s.taken) && s.tail == Gen(s.released)
    && s.taken == s.released + Tickets(s.threads)
    && (forall t: nat :: t < |s.threads| ==> ThreadOk(s, s.threads[t]))
    && (forall t: nat, u: nat :: t < u < |s.threads| ==> Apart(s.threads[t], s.threads[u]))
  }

  lemma {:induction false} OthersApart(s: State, t: nat, u: nat)
    requires Inv(s) && t < |s.threads| && u < |s.threads| && t != u
    ensures Apart(s.threads[t], s.threads[u])
  {
    if t < u { assert Apart(s.threads[t], s.threads[u]); } else { assert Apart(s.threads[u], s.threads[t]); }
  }

  // The number on the ticket names its turn, however often the counters wrapped.
  lemma {:induction false} TicketIsTurn(s: State, t: nat)
    requires Inv(s) && |s.threads| <= WORD && t < |s.threads| && Waits(s.threads[t])
    ensures s.tail == s.threads[t].ticket <==> s.threads[t].turn == s.released
  {
    assert ThreadOk(s, s.threads[t]);
    TicketsBound(s.threads);
    if s.tail == s.threads[t].ticket {
      LessThanATurn(s.threads[t].turn, s.released);
      NoTurn(s.threads[t].turn, s.released);
    }
  }

  ghost predicate CountersOk(s: State) {
    s.head == Gen(s.taken) && s.tail == Gen(s.released) && s.taken == s.released + Tickets(s.threads)
  }

  lemma {:induction false} CountersStep(s: State, t: nat, a: Action)
    requires Inv(s) && Enabled(s, t, a)
    ensures CountersOk(Next(s, t, a))
  {
    TicketsUpdate(s.threads, t, Next(s, t, a).threads[t]);
  }

  lemma {:induction false} OwnStep(s: State, t: nat, a: Action)
    requires Inv(s) && |s.threads| <= WORD && Enabled(s, t, a)
    ensures ThreadOk(Next(s, t, a), Next(s, t, a).threads[t])
  {
    assert ThreadOk(s, s.threads[t]);
    if Waits(s.threads[t]) { TicketIsTurn(s, t); }
  }

  lemma {:induction false} OtherStep(s: State, t: nat, a: Action, u: nat)
    requires Inv(s) && Enabled(s, t, a) && u < |s.threads| && u != t
    ensures ThreadOk(Next(s, t, a), s.threads[u]) && Apart(Next(s, t, a).threads[t], s.threads[u])
  {
    assert ThreadOk(s, s.threads[t]) && ThreadOk(s, s.threads[u]);
    OthersApart(s, t, u);
  }

  lemma {:induction false} InvStep(s: State, t: nat, a: Action)
    requires Inv(s) && |s.threads| <= WORD && Enabled(s, t, a)
    ensures Inv(Next(s, t, a))
  {
    var s' := Next(s, t, a);
    assert s'.threads == s.threads[t := s'.threads[t]];
    CountersStep(s, t, a);
    OwnStep(s, t, a);
    forall u: nat | u < |s.threads| && u != t
      ensures ThreadOk(s', s.threads[u]) && Apart(s'.threads[t], s.threads[u])
    {
      OtherStep(s, t, a, u);
    }
    ThreadsKept(s, s', t);
  }

  lemma {:induction false} ThreadsKept(s: State, s': State, t: nat)
    requires Inv(s) && t < |s.threads| && |s'.threads| == |s.threads| && s'.threads == s.threads[t := s'.threads[t]]
    requires CountersOk(s') && ThreadOk(s', s'.threads[t])
    requires forall u: nat :: u < |s.threads| && u != t ==>
                                ThreadOk(s', s.threads[u]) && Apart(s'.threads[t], s.threads[u])
    ensures Inv(s')
  {
    forall u: nat, v: nat | u < v < |s.threads| ensures Apart(s'.threads[u], s'.threads[v]) {
      assert Apart(s.threads[u], s.threads[v]);
      if u == t { assert Apart(s'.threads[t], s.threads[v]); }
      if v == t { assert Apart(s'.threads[t], s.threads[u]); }
    }
  }

  lemma {:induction false} InvRun(run: seq<State>, sched: Schedule, n: nat, cnt: nat, i: nat)
    requires IsRun(run, sched) && run[0] == Init(n, cnt) && n <= WORD && i < |run|
    ensures Inv(run[i]) && |run[i].threads| == n
  {
    if i == 0 {
      NoTickets(run[0].threads);
    } else {
      InvRun(run, sched, n, cnt, i - 1);
      assert StepOk(run[i - 1], sched[i - 1], run[i]);
      InvStep(run[i - 1], sched[i - 1].0, sched[i - 1].1);
    }
  }

  // ---- Mutual exclusion, order and progress ----

  ghost predicate Exclusive(s: State) {
    forall t: nat, u: nat :: t < u < |s.threads| ==> !(Holds(s.threads[t]) && Holds(s.threads[u]))
  }

  lemma {:induction false} MutualExclusion(s: State)
    requires Inv(s)
    ensures Exclusive(s)
  {
    forall t: nat, u: nat | t < u < |s.threads| ensures !(Holds(s.threads[t]) && Holds(s.threads[u])) {
      assert Apart(s.threads[t], s.threads[u]) && ThreadOk(s, s.threads[t]) && ThreadOk(s, s.threads[u]);
    }
  }

  function Turns(threads: seq<Thread>): set<nat> {
    if threads == [] then {} else (if HasTicket(threads[0]) then {threads[0].turn} else {}) + Turns(threads[1..])
  }

  lemma {:induction false} TurnsMember(threads: seq<Thread>, n: nat)
    ensures n in Turns(threads) <==> exists t: nat :: t < |threads| && HasTicket(threads[t]) && threads[t].turn == n
  {
    if threads != [] {
      TurnsMember(threads[1..], n);
      if n in Turns(threads[1..]) {
        var t: nat :| t < |threads[1..]| && HasTicket(threads[1..][t]) && threads[1..][t].turn == n;
        assert threads[t + 1] == threads[1..][t];
      }
      if t: nat :| t < |threads| && HasTicket(threads[t]) && threads[t].turn == n && t > 0 {
        assert threads[1..][t - 1] == threads[t];
      }
    }
  }

  lemma {:induction false} TurnsCount(threads: seq<Thread>)
    requires forall t: nat, u: nat :: t < u < |threads| ==> Apart(threads[t], threads[u])
    ensures |Turns(threads)| == Tickets(threads)
  {
    if threads != [] {
      var rest := threads[1..];
      forall t: nat, u: nat | t < u < |rest| ensures Apart(rest[t], rest[u]) {
        assert Apart(threads[t + 1], threads[u + 1]);
      }
      TurnsCount(rest);
      if HasTicket(threads[0]) {
        TurnsMember(rest, threads[0].turn);
        forall t: nat | t < |rest| ensures Apart(threads[0], rest[t]) { assert Apart(threads[0], threads[t + 1]); }
      }
    }
  }

  function Range(lo: nat, hi: nat): (r: set<nat>)
    requires lo <= hi
    ensures forall i: nat :: i in r <==> lo <= i < hi
    ensures |r| == hi - lo
    decreases hi
  {
    if lo == hi then {} else Range(lo, hi - 1) + {hi - 1}
  }

  // The tickets out are exactly the turns from the one being served to the last one
  // taken, each with one thread.
  lemma {:induction false} TicketsOut(s: State)
    requires Inv(s)
    ensures s.released <= s.taken && Turns(s.threads) == Range(s.released, s.taken)
    ensures forall t: nat, u: nat :: t < u < |s.threads| ==> Apart(s.threads[t], s.threads[u])
  {
    var r := Range(s.released, s.taken);
    forall n | n in Turns(s.threads) ensures n in r {
      TurnsMember(s.threads, n);
      var t: nat :| t < |s.threads| && HasTicket(s.threads[t]) && s.threads[t].turn == n;
      assert ThreadOk(s, s.threads[t]);
    }
    TurnsCount(s.threads);
    assert |r - Turns(s.threads)| == |r| - |Turns(s.threads)|;
  }

  // If somebody waits and nobody holds the lock, there is a thread whose look at
  // `tail` finds its own ticket, and it is the only one.
  lemma {:induction false} SomeoneMayEnter(s: State, w: nat) returns (t: nat)
    requires Inv(s) && |s.threads| <= WORD && w < |s.threads| && Waits(s.threads[w])
    requires forall u: nat :: u < |s.threads| ==> !Holds(s.threads[u])
    ensures t < |s.threads| && Waits(s.threads[t]) && s.tail == s.threads[t].ticket
    ensures forall u: nat :: u < |s.threads| && Waits(s.threads[u]) && s.tail == s.threads[u].ticket ==> u == t
  {
    assert ThreadOk(s, s.threads[w]);
    TicketsOut(s);
    assert s.released in Range(s.released, s.taken);
    TurnsMember(s.threads, s.released);
    t :| t < |s.threads| && HasTicket(s.threads[t]) && s.threads[t].turn == s.released;
    TicketIsTurn(s, t);
    forall u: nat | u < |s.threads| && Waits(s.threads[u]) && s.tail == s.threads[u].ticket ensures u == t {
      TicketIsTurn(s, u);
      if u != t { OthersApart(s, t, u); }
    }
  }

  lemma {:induction false} CountersGrow(run: seq<State>, sched: Schedule, i: nat, j: nat)
    requires IsRun(run, sched) && i <= j < |run|
    ensures run[i].released <= run[j].released && run[i].taken <= run[j].taken
    ensures |run[i].threads| == |run[j].threads|
  {
    if i < j {
      CountersGrow(run, sched, i, j - 1);
      assert StepOk(run[j - 1], sched[j - 1], run[j]);
    }
  }

  // The ticket a thread took in state i is served after exactly as many releases as
  // there were tickets ahead of it.
  lemma {:induction false} ServedInTurn(run: seq<State>, sched: Schedule, n: nat, cnt: nat, i: nat, j: nat, t: nat)
    requires IsRun(run, sched) && run[0] == Init(n, cnt) && n <= WORD && i <= j < |run| && t < n
    requires t < |run[i].threads| && Waits(run[i].threads[t])
    requires t < |run[j].threads| && Holds(run[j].threads[t]) && run[j].threads[t].turn == run[i].threads[t].turn
    ensures run[j].released - run[i].released == run[i].threads[t].turn - run[i].released
  {
    InvRun(run, sched, n, cnt, j);
    assert ThreadOk(run[j], run[j].threads[t]);
  }

  // Threads are served in the order of their fetch-and-adds: once a later turn
  // holds the lock, every earlier ticket has been given back.
  lemma {:induction false} FirstComeFirstServed(run: seq<State>, sched: Schedule, n: nat, cnt: nat, j: nat,
                                                  t: nat, u: nat)
    requires IsRun(run, sched) && run[0] == Init(n, cnt) && n <= WORD && j < |run|
    requires t < |run[j].threads| && u < |run[j].threads| && t != u
    requires Holds(run[j].threads[u]) && HasTicket(run[j].threads[t])
    ensures run[j].threads[u].turn < run[j].threads[t].turn && Waits(run[j].threads[t])
  {
    InvRun(run, sched, n, cnt, j);
    assert ThreadOk(run[j], run[j].threads[t]) && ThreadOk(run[j], run[j].threads[u]);
    OthersApart(run[j], t, u);
  }

  // A fetch-and-add later in the run gives a later turn.
  lemma {:induction false} TurnsFollowFetchAdds(run: seq<State>, sched: Schedule, i: nat, j: nat)
    requires IsRun(run, sched) && i < j < |sched|
    requires sched[i].0 < |run[i].threads| && run[i].threads[sched[i].0].Enter? && sched[i].1.Run?
    requires sched[j].0 < |run[j].threads| && run[j].threads[sched[j].0].Enter? && sched[j].1.Run?
    ensures sched[i].0 < |run[i + 1].threads| && HasTicket(run[i + 1].threads[sched[i].0])
    ensures sched[j].0 < |run[j + 1].threads| && HasTicket(run[j + 1].threads[sched[j].0])
    ensures run[i + 1].threads[sched[i].0].turn < run[j + 1].threads[sched[j].0].turn
  {
    assert StepOk(run[i], sched[i], run[i + 1]) && StepOk(run[j], sched[j], run[j + 1]);
    CountersGrow(run, sched, i + 1, j);
  }

  // ---- lock+inc+unlock is one atomic increment ----

  function CallOf(th: Thread): Call {
    match th
    case Idle => Free
    case Stored(_) => Counted
    case Done => Counted
    case _ => Called
  }

  function Abs(s: State): Counter {
    Counter(s.cnt, seq(|s.threads|, t requires 0 <= t < |s.threads| => CallOf(s.threads[t])))
  }

  function EventOf(a: Action): Event {
    match a case CallSpin => Start case Return => End case Run => Inside
  }

  lemma {:induction false} StepRefines(s: State, t: nat, a: Action)
    requires Inv(s) && |s.threads| <= WORD && Enabled(s, t, a)
    ensures CounterStep(Abs(s), t, EventOf(a), Abs(Next(s, t, a)))
  {
    var s' := Next(s, t, a);
    assert ThreadOk(s, s.threads[t]);
    assert Abs(s').calls == Abs(s).calls[t := CallOf(s'.threads[t])];
  }

  function Events(sched: Schedule): seq<(nat, Event)> {
    seq(|sched|, i requires 0 <= i < |sched| => (sched[i].0, EventOf(sched[i].1)))
  }

  function AbsRun(run: seq<State>): seq<Counter> {
    seq(|run|, i requires 0 <= i < |run| => Abs(run[i]))
  }

  // Every run is one of the atomic counter, so no increment is lost.
  lemma {:induction false} RunRefines(run: seq<State>, sched: Schedule, n: nat, cnt: nat, i: nat)
    requires IsRun(run, sched) && run[0] == Init(n, cnt) && n <= WORD && i < |run|
    ensures IsCounterRun(AbsRun(run), Events(sched))
    ensures run[i].cnt == Plus(cnt, Completed(Events(sched)[..i]) + Returning(Abs(run[i]).calls))
  {
    forall k | 0 <= k < |sched|
      ensures CounterStep(AbsRun(run)[k], Events(sched)[k].0, Events(sched)[k].1, AbsRun(run)[k + 1])
    {
      InvRun(run, sched, n, cnt, k);
      assert StepOk(run[k], sched[k], run[k + 1]);
      StepRefines(run[k], sched[k].0, sched[k].1);
    }
    CountIsExact(AbsRun(run), Events(sched), i);
  }

  // ---- With more than 2^64 threads exclusion fails ----

  ghost predicate Leads(s: State, sched: Schedule, s': State) { R.Leads(StepOk, s, sched, s') }

  lemma {:induction false} Then(s: State, sched: Schedule, m: State, t: nat, a: Action)
    requires Leads(s, sched, m) && Enabled(m, t, a)
    ensures Leads(s, sched + [(t, a)], Next(m, t, a))
  {
    R.Then(StepOk, s, sched, m, (t, a), Next(m, t, a));
  }

  // The first k threads have taken tickets.
  function Queued(n: nat, k: nat): State
    requires k <= n
  {
    State(Gen(k), 0, 0, seq(n, i requires 0 <= i < n => if i < k then Check(Gen(i), i) else Idle), k, 0)
  }

  lemma {:induction false} Queue(n: nat, k: nat) returns (sched: Schedule)
    requires k <= n
    ensures Leads(Init(n, 0), sched, Queued(n, k))
  {
    if k == 0 {
      sched := [];
      assert Init(n, 0) == Queued(n, 0);
      R.Stay(StepOk, Init(n, 0));
    } else {
      var first := Queue(n, k - 1);
      var m := Queued(n, k - 1);
      Then(Init(n, 0), first, m, k - 1, CallSpin);
      Then(Init(n, 0), first + [(k - 1, CallSpin)], Goto(m, k - 1, Enter), k - 1, Run);
      sched := first + [(k - 1, CallSpin)] + [(k - 1, Run)];
      assert Next(Goto(m, k - 1, Enter), k - 1, Run).threads == Queued(n, k).threads;
    }
  }

  // Thread 2^64 draws the number thread 0 has, and both get in.
  lemma {:induction false} TooManyThreads(n: nat) returns (sched: Schedule, s: State)
    requires n > WORD
    ensures Leads(Init(n, 0), sched, s) && !Exclusive(s)
  {
    var queue := Queue(n, WORD + 1);
    var q := Queued(n, WORD + 1);
    GenWraps(WORD);
    Then(Init(n, 0), queue, q, 0, Run);
    var m := Goto(q, 0, Locked(0));
    Then(Init(n, 0), queue + [(0, Run)], m, WORD, Run);
    sched := queue + [(0, Run)] + [(WORD, Run)];
    s := Goto(m, WORD, Locked(WORD));
    assert Holds(s.threads[0]) && Holds(s.threads[WORD]);
  }

  ghost predicate AlwaysExclusive(n: nat) {
    forall run: seq<State>, sched, i: nat ::
      IsRun(run, sched) && run[0] == Init(n, 0) && i < |run| ==> Exclusive(run[i])
  }

  // The lock excludes in every run exactly up to 2^64 threads.
  lemma {:induction false} ExclusionIffThreadsFit(n: nat)
    ensures AlwaysExclusive(n) <==> n <= WORD
  {
    if n <= WORD {
      forall run: seq<State>, sched, i: nat | IsRun(run, sched) && run[0] == Init(n, 0) && i < |run|
        ensures Exclusive(run[i])
      {
        InvRun(run, sched, n, 0, i);
        MutualExclusion(run[i]);
      }
    } else {
      var sched, s := TooManyThreads(n);
      var run: seq<State> :| R.Is(StepOk, run, sched) && run[0] == Init(n, 0) && run[|sched|] == s;
      assert IsRun(run, sched);
      assert !Exclusive(run[|sched|]);
    }
  }

  // ---- The counters in memory ----

  // Each method is one atomic operation, or one access to cnt, of the thread named.
  class TicketSpin {
    var head: nat
    var cnt: nat
    var tail: nat
    const threads: array<Thread>
    // History.
    var taken: nat
    var released: nat

    ghost function Now(): State
      reads this, threads
    {
      State(head, tail, cnt, threads[..], taken, released)
    }

    ghost predicate Valid()
      reads this, threads
    {
      Inv(Now()) && threads.Length <= WORD
    }

    constructor (n: nat, cnt: nat)
      requires n <= WORD
      ensures Valid() && Now() == Init(n, cnt) && fresh(threads)
    {
      threads := new Thread[n](_ => Idle);
      head, tail, this.cnt, taken, released := 0, 0, cnt, 0, 0;
      new;
      NoTickets(threads[..]);
      assert threads[..] == Init(n, cnt).threads;
    }

    ghost predicate At(t: nat)
      reads this, threads
    {
      Valid() && t < threads.Length
    }

    method TakeTicket(t: nat)
      requires At(t) && threads[t].Enter?
      modifies this`head, this`taken, threads
      ensures At(t) && Now() == Next(old(Now()), t, Run)
    {
      InvStep(Now(), t, Run);
      threads[t] := Check(head, taken);
      head, taken := Bump(head), taken + 1;
      assert Now() == Next(old(Now()), t, Run);
    }

    // A look at `tail`, in the outer or in the inner loop.
    method Look(t: nat) returns (mine: bool)
      requires At(t) && Waits(threads[t])
      modifies threads
      ensures At(t) && Now() == Next(old(Now()), t, Run)
      ensures mine <==> old(threads[t].turn == released)
      ensures Holds(threads[t]) <==> mine && old(threads[t].Check?)
    {
      InvStep(Now(), t, Run);
      TicketIsTurn(Now(), t);
      mine := tail == threads[t].ticket;
      match threads[t] {
        case Check(k, n) => threads[t] := if mine then Locked(n) else Spin(k, n);
        case Spin(k, n) => if mine { threads[t] := Check(k, n); }
      }
      assert Now() == Next(old(Now()), t, Run);
    }

    method LoadCnt(t: nat)
      requires At(t) && threads[t].Locked?
      modifies threads
      ensures At(t) && Now() == Next(old(Now()), t, Run)
    {
      InvStep(Now(), t, Run);
      threads[t] := Loaded(threads[t].turn, cnt);
      assert Now() == Next(old(Now()), t, Run);
    }

    method StoreCnt(t: nat)
      requires At(t) && threads[t].Loaded?
      modifies this`cnt, threads
      ensures At(t) && Now() == Next(old(Now()), t, Run) && cnt == Bump(old(cnt))
    {
      InvStep(Now(), t, Run);
      assert ThreadOk(Now(), threads[t]);
      cnt := Bump(threads[t].val);
      threads[t] := Stored(threads[t].turn);
      assert Now() == Next(old(Now()), t, Run);
    }

    method Unlock(t: nat)
      requires At(t) && threads[t].Stored?
      modifies this`tail, this`released, threads
      ensures At(t) && Now() == Next(old(Now()), t, Run)
      ensures forall u: nat :: u < threads.Length ==> !Holds(threads[u])
    {
      InvStep(Now(), t, Run);
      MutualExclusion(Now());
      tail, released := Bump(tail), released + 1;
      threads[t] := Done;
      assert Now() == Next(old(Now()), t, Run);
    }
  }
}
