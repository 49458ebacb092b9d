/** The stack in memory: two heads, a counter and the embedded nodes, updated in place.

    Each method that takes a thread is one atomic operation or one access to a node,
    and does to the fields exactly what the step functions of module LfStack say.
    Push and Pop are the loops of the program around those operations, with no
    other call in flight. */
module LfStackObject {
  import opened LfStack
  import opened LfStackInvariant
  import opened LfStackRefinement
  import opened Words

  // How many nodes fit in a buffer of the given size, if at least one does.
  // `header` and `node` are the sizes of the two structures.
  function Capacity(bufsz: nat, header: nat, node: nat): (n: nat)
    requires node > 0
    ensures n == 0 <==> bufsz < header + node
    ensures n > 0 ==> header + n * node <= bufsz < header + (n + 1) * node
  {
    if bufsz < header + node then 0 else (bufsz - header) / node
  }

  lemma {:induction false} Times(a: nat, b: nat, c: nat)
    ensures a <= b ==> a * c <= b * c
  {
    if c > 0 { Times(a, b, c - 1); }
  }

  // A stack created for n nodes has exactly n, and none is created for n = 0.
  lemma {:induction false} CreateCapacity(n: nat, header: nat, node: nat)
    requires node > 0
    ensures Capacity(header + node * n, header, node) == n
  {
    if n > 0 {
      Times(1, n, node);
      var k := Capacity(header + node * n, header, node);
      Times(k + 1, n, node);
      Times(n + 1, k, node);
    }
  }

  // With every thread idle, each node handed out is on the stack or in the cache.
  lemma {:induction false} AtRestCounts(s: State)
    requires Inv(s) && forall t: nat :: t < |s.threads| ==> s.threads[t] == Idle
    ensures |s.stackChain| + |s.cacheChain| == Handed(s)
    ensures s.cache.ptr.Null? <==> s.cacheChain == []
    ensures |Items(s)| == |s.stackChain|
  {
    NoOwners(s.threads);
  }

  // So there is room exactly if the cache holds a node or one was never used.
  lemma {:induction false} RoomAtRest(s: State)
    requires Inv(s) && forall t: nat :: t < |s.threads| ==> s.threads[t] == Idle
    ensures |Items(s)| < s.nodemax <==> s.cache.ptr.Node? || s.nodec < s.nodemax
  {
    AtRestCounts(s);
  }

  lemma {:induction false} FetchAddShows(s: State, t: nat, d: Data)
    requires Inv(s) && t < |s.threads| && s.threads[t].PushTop? && s.threads[t].data == d
    requires s.threads[t].orig.head.ptr.Null? && s.nodec + 1 < WORD
    ensures var s' := FetchAdd(s, t, d);
            Inv(s') && RunStep(s, t, false) == s' && Items(s') == Items(s) && s'.nodec == s.nodec + 1
  {
    FetchAddInv(s, t, d);
    FetchAddStep(s, t, d);
  }

  lemma {:induction false} FetchAddStep(s: State, t: nat, d: Data)
    requires t < |s.threads| && s.threads[t].PushTop? && s.threads[t].data == d
    requires s.threads[t].orig.head.ptr.Null? && s.nodec + 1 < WORD
    ensures var s' := FetchAdd(s, t, d);
            RunStep(s, t, false) == s' && Items(s') == Items(s) && s'.nodec == s.nodec + 1
  {
  }

  // The four exchanges, one way or the other.
  lemma {:induction false} CacheExchangeSteps(s: State, t: nat, spurious: bool)
    requires t < |s.threads| && (s.threads[t].PushCacheCas? || s.threads[t].PopCacheCas?)
    requires s.threads[t].PushCacheCas? ==> s.threads[t].orig.head.ptr.Node?
    ensures var th := s.threads[t]; var wins := s.cache == th.orig.head && !spurious;
            RunStep(s, t, spurious) ==
            if th.PushCacheCas? then
              if wins then TakeCache(s, t, th.data, th.orig, th.next) else Goto(s, t, PushTop(th.data, SnapCache(s)))
            else
              if wins then GiveCache(s, t, th.node, th.data, th.orig)
              else Goto(s, t, PopWriteNext(th.node, th.data, SnapCache(s)))
  {
  }

  lemma {:induction false} StackExchangeSteps(s: State, t: nat, spurious: bool)
    requires t < |s.threads| && (s.threads[t].PushStackCas? || s.threads[t].PopStackCas?)
    requires s.threads[t].PopStackCas? ==> s.threads[t].orig.head.ptr.Node?
    ensures var th := s.threads[t]; var wins := s.stack == th.orig.head && !spurious;
            RunStep(s, t, spurious) ==
            if th.PopStackCas? then
              if wins then TakeStack(s, t, th.orig, th.next) else Goto(s, t, PopTop(SnapStack(s)))
            else
              if wins then GiveStack(s, t, th.node, th.orig)
              else Goto(s, t, PushWriteNext(th.node, SnapStack(s)))
  {
  }

  // About to read a head, and then.
  predicate Looks(th: Thread) { th.PushLoadCache? || th.PushLoadStack? || th.PopLoadStack? || th.PopLoadCache? }

  function Looked(th: Thread, stack: Snap, cache: Snap): Thread
    requires Looks(th)
  {
    match th
    case PushLoadCache(d) => PushTop(d, cache)
    case PushLoadStack(n) => PushWriteNext(n, stack)
    case PopLoadStack => PopTop(stack)
    case PopLoadCache(n, d) => PopWriteNext(n, d, cache)
  }

  class Stack {
    var nodecache: Head
    var stack: Head
    var nodec: nat
    const nodemax: nat
    const next: array<Ptr>
    const data: array<Data>
    // The calls in flight, one per thread.
    const threads: array<Thread>
    // History.
    var stackX: nat
    var cacheX: nat
    ghost var stackChain: seq<nat>
    ghost var cacheChain: seq<nat>
    ghost var written: set<nat>

    ghost function Now(): State
      reads this, next, data, threads
    {
      State(nodemax, nodec, nodecache, stack, next[..], data[..], threads[..],
            stackChain, cacheChain, stackX, cacheX, written)
    }

    ghost predicate Valid()
      reads this, next, data, threads
    {
      Inv(Now())
    }

    // The data pointers on the stack, top first.
    ghost function Contents(): seq<Data>
      reads this, next, data, threads
    {
      Items(Now())
    }

    ghost predicate AtRest()
      reads this, next, data, threads
    {
      forall t: nat :: t < threads.Length ==> threads[t] == Idle
    }

    constructor (nodemax: nat, tdmax: nat)
      requires nodemax > 0
      ensures Valid() && AtRest() && Init(Now()) && Contents() == []
      ensures this.nodemax == nodemax && threads.Length == tdmax
      ensures fresh(next) && fresh(data) && fresh(threads)
    {
      this.nodemax := nodemax;
      next := new Ptr[nodemax];
      data := new Data[nodemax];
      threads := new Thread[tdmax](_ => Idle);
      nodecache, stack, nodec := Head(Null, 0), Head(Null, 0), 0;
      stackX, cacheX, stackChain, cacheChain, written := 0, 0, [], [], {};
      new;
      InitInv(Now());
    }

    method Start(t: nat, a: Action)
      requires Valid() && Enabled(Now(), t, a) && !a.Run?
      modifies threads
      ensures Valid() && Now() == Next(old(Now()), t, a) && Contents() == old(Contents())
    {
      ghost var s := Now();
      match a {
        case CallPush(d) => threads[t] := PushLoadCache(d);
        case CallPop => threads[t] := PopLoadStack;
        case Return => threads[t] := Idle;
      }
      assert Now().threads == s.threads[t := threads[t]];
      InvStep(s, t, a);
      CallsKept(s, Now(), t);
    }

    method LoadHead(t: nat)
      requires Valid() && t < threads.Length && Looks(threads[t])
      modifies threads
      ensures Valid() && Now() == RunStep(old(Now()), t, false) && Contents() == old(Contents())
    {
      ghost var s := Now();
      match threads[t] {
        case PushLoadCache(d) => threads[t] := PushTop(d, Snap(nodecache, cacheX));
        case PushLoadStack(n) => threads[t] := PushWriteNext(n, Snap(stack, stackX));
        case PopLoadStack => threads[t] := PopTop(Snap(stack, stackX));
        case PopLoadCache(n, d) => threads[t] := PopWriteNext(n, d, Snap(nodecache, cacheX));
      }
      assert Now().threads == s.threads[t := threads[t]];
      assert Now() == RunStep(s, t, false);
      InvStep(s, t, Run(false));
      CallsKept(s, Now(), t);
    }

    // Reads `next` of the node that the snapshot names.
    method ReadSuccessor(t: nat)
      requires Valid() && t < threads.Length
      requires (threads[t].PushTop? || threads[t].PopTop?) && threads[t].orig.head.ptr.Node?
      modifies threads
      ensures Valid() && Now() == RunStep(old(Now()), t, false) && Contents() == old(Contents())
    {
      ghost var s := Now();
      assert Timely(s, t) && ThreadOk(s, threads[t]);
      var p := next[threads[t].orig.head.ptr.index];
      match threads[t] {
        case PushTop(d, orig) => threads[t] := PushCacheCas(d, orig, p);
        case PopTop(orig) => threads[t] := PopStackCas(orig, p);
      }
      assert Now().threads == s.threads[t := threads[t]];
      assert Now() == RunStep(s, t, false);
      InvStep(s, t, Run(false));
      CallsKept(s, Now(), t);
    }

    // Takes the next node that was never used, or gives up.
    method TakeUnused(t: nat) returns (ok: bool)
      requires Valid() && t < threads.Length
      requires threads[t].PushTop? && threads[t].orig.head.ptr.Null? && nodec + 1 < WORD
      modifies this`nodec, threads
      ensures Valid() && Now() == RunStep(old(Now()), t, false) && Contents() == old(Contents())
      ensures ok == (old(nodec) < nodemax) && nodec == old(nodec) + 1
      ensures threads[..] == old(threads[..])[t :=
                               if ok then PushWriteData(old(threads[t]).data, old(nodec)) else PushDone(false)]
    {
      ghost var s := Now();
      var n := nodec;
      nodec := Bump(n);
      ok := n < nodemax;
      threads[t] := if ok then PushWriteData(threads[t].data, n) else PushDone(false);
      assert Now().threads == s.threads[t := threads[t]];
      assert Now() == FetchAdd(s, t, s.threads[t].data);
      FetchAddShows(s, t, s.threads[t].data);
    }

    method FindEmpty(t: nat)
      requires Valid() && t < threads.Length && threads[t].PopTop? && threads[t].orig.head.ptr.Null?
      modifies threads
      ensures Valid() && Now() == RunStep(old(Now()), t, false) && Contents() == old(Contents())
    {
      ghost var s := Now();
      threads[t] := PopDone(NIL);
      assert Now().threads == s.threads[t := threads[t]];
      assert Now() == RunStep(s, t, false);
      InvStep(s, t, Run(false));
      CallsKept(s, Now(), t);
    }

    // The four weak exchanges.  One that fails reloads the snapshot.
    method TakeFromCache(t: nat, spurious: bool) returns (ok: bool)
      requires Valid() && t < threads.Length && threads[t].PushCacheCas? && Timely(Now(), t)
      modifies this`nodecache, this`cacheX, this`cacheChain, threads
      ensures Valid() && Now() == RunStep(old(Now()), t, spurious)
      ensures ok == (old(nodecache) == old(threads[t]).orig.head && !spurious)
      ensures Contents() == old(Contents())
    {
      ghost var s := Now();
      assert ThreadOk(s, threads[t]);
      var PushCacheCas(d, orig, p) := threads[t];
      ok := nodecache == orig.head && !spurious;
      if ok {
        threads[t] := PushWriteData(d, orig.head.ptr.index);
        nodecache, cacheX, cacheChain := Head(p, Bump(orig.head.gen)), cacheX + 1, Rest(cacheChain);
        assert Now() == TakeCache(s, t, d, orig, p);
      } else {
        threads[t] := PushTop(d, Snap(nodecache, cacheX));
        assert Now() == Goto(s, t, PushTop(d, SnapCache(s)));
      }
      CacheExchangeSteps(s, t, spurious);
      assert Now() == RunStep(s, t, spurious);
      InvStep(s, t, Run(spurious));
      CallsKept(s, Now(), t);
    }

    method GiveToCache(t: nat, spurious: bool) returns (ok: bool)
      requires Valid() && t < threads.Length && threads[t].PopCacheCas? && Timely(Now(), t)
      modifies this`nodecache, this`cacheX, this`cacheChain, threads
      ensures Valid() && Now() == RunStep(old(Now()), t, spurious)
      ensures ok == (old(nodecache) == old(threads[t]).orig.head && !spurious)
      ensures Contents() == old(Contents())
      ensures threads[..] == old(threads[..])[t := threads[t]]
      ensures if ok then threads[t].PopDone? else threads[t].PopWriteNext? && threads[t].orig == Snap(nodecache, cacheX)
    {
      ghost var s := Now();
      assert ThreadOk(s, threads[t]);
      var PopCacheCas(n, d, orig) := threads[t];
      ok := nodecache == orig.head && !spurious;
      if ok {
        threads[t] := PopDone(d);
        nodecache, cacheX, cacheChain := Head(Node(n), Bump(orig.head.gen)), cacheX + 1, [n] + cacheChain;
        assert Now() == GiveCache(s, t, n, d, orig);
      } else {
        threads[t] := PopWriteNext(n, d, Snap(nodecache, cacheX));
        assert Now() == Goto(s, t, PopWriteNext(n, d, SnapCache(s)));
      }
      CacheExchangeSteps(s, t, spurious);
      assert Now() == RunStep(s, t, spurious);
      InvStep(s, t, Run(spurious));
      CallsKept(s, Now(), t);
    }

    // The exchanges on the stack are where a call takes effect.
    method GiveToStack(t: nat, spurious: bool) returns (ok: bool)
      requires Valid() && t < threads.Length && threads[t].PushStackCas? && Timely(Now(), t)
      modifies this`stack, this`stackX, this`stackChain, threads
      ensures Valid() && Now() == RunStep(old(Now()), t, spurious)
      ensures ok == (old(stack) == old(threads[t]).orig.head && !spurious)
      ensures Contents() == (if ok then [old(ReadData(Now(), threads[t].node))] else []) + old(Contents())
    {
      ghost var s := Now();
      assert ThreadOk(s, threads[t]);
      var PushStackCas(n, orig) := threads[t];
      ok := stack == orig.head && !spurious;
      if ok {
        PushTakesEffect(s, t, n, orig);
        threads[t] := PushDone(true);
        stack, stackX, stackChain := Head(Node(n), Bump(orig.head.gen)), stackX + 1, [n] + stackChain;
        assert Now() == GiveStack(s, t, n, orig);
      } else {
        threads[t] := PushWriteNext(n, Snap(stack, stackX));
        assert Now() == Goto(s, t, PushWriteNext(n, SnapStack(s)));
      }
      StackExchangeSteps(s, t, spurious);
      assert Now() == RunStep(s, t, spurious);
      InvStep(s, t, Run(spurious));
      CallsKept(s, Now(), t);
    }

    method TakeFromStack(t: nat, spurious: bool) returns (ok: bool)
      requires Valid() && t < threads.Length && threads[t].PopStackCas? && Timely(Now(), t)
      modifies this`stack, this`stackX, this`stackChain, threads
      ensures Valid() && Now() == RunStep(old(Now()), t, spurious)
      ensures ok == (old(stack) == old(threads[t]).orig.head && !spurious)
      ensures old(Contents())
           == (if ok then [old(ReadData(Now(), threads[t].orig.head.ptr.index))] else []) + Contents()
    {
      ghost var s := Now();
      assert ThreadOk(s, threads[t]);
      var PopStackCas(orig, p) := threads[t];
      ok := stack == orig.head && !spurious;
      if ok {
        PopTakesEffect(s, t, orig, p);
        threads[t] := PopReadData(orig.head.ptr.index);
        stack, stackX, stackChain := Head(p, Bump(orig.head.gen)), stackX + 1, Rest(stackChain);
        assert Now() == TakeStack(s, t, orig, p);
      } else {
        threads[t] := PopTop(Snap(stack, stackX));
        assert Now() == Goto(s, t, PopTop(SnapStack(s)));
      }
      StackExchangeSteps(s, t, spurious);
      assert Now() == RunStep(s, t, spurious);
      InvStep(s, t, Run(spurious));
      CallsKept(s, Now(), t);
    }

    method StoreData(t: nat)
      requires Valid() && t < threads.Length && threads[t].PushWriteData?
      modifies data, threads
      ensures Valid() && Now() == RunStep(old(Now()), t, false) && Contents() == old(Contents())
    {
      ghost var s := Now();
      assert OwnerOk(s, threads[t]);
      var n := threads[t].node;
      data[n] := threads[t].data;
      threads[t] := PushLoadStack(n);
      assert Now().threads == s.threads[t := threads[t]] && Now().data == s.data[n := s.threads[t].data];
      assert Now() == RunStep(s, t, false);
      InvStep(s, t, Run(false));
      CallsKept(s, Now(), t);
    }

    method FetchData(t: nat)
      requires Valid() && t < threads.Length && threads[t].PopReadData?
      modifies threads
      ensures Valid() && Now() == RunStep(old(Now()), t, false) && Contents() == old(Contents())
    {
      ghost var s := Now();
      assert OwnerOk(s, threads[t]);
      threads[t] := PopLoadCache(threads[t].node, data[threads[t].node]);
      assert Now().threads == s.threads[t := threads[t]];
      assert Now() == RunStep(s, t, false);
      InvStep(s, t, Run(false));
      CallsKept(s, Now(), t);
    }

    method StoreNext(t: nat)
      requires Valid() && t < threads.Length && (threads[t].PushWriteNext? || threads[t].PopWriteNext?)
      modifies this`written, next, threads
      ensures Valid() && Now() == RunStep(old(Now()), t, false) && Contents() == old(Contents())
    {
      ghost var s := Now();
      assert OwnerOk(s, threads[t]);
      var n := threads[t].node;
      next[n] := threads[t].orig.head.ptr;
      written := written + {n};
      match threads[t] {
        case PushWriteNext(_, orig) => threads[t] := PushStackCas(n, orig);
        case PopWriteNext(_, d, orig) => threads[t] := PopCacheCas(n, d, orig);
      }
      assert Now().threads == s.threads[t := threads[t]] && Now().next == s.next[n := next[n]];
      assert Now() == RunStep(s, t, false);
      InvStep(s, t, Run(false));
      CallsKept(s, Now(), t);
    }

    // Only thread t is in a call.
    ghost predicate Alone(t: nat)
      reads this, next, data, threads
    {
      Valid() && t < threads.Length && forall u: nat :: u < threads.Length && u != t ==> threads[u] == Idle
    }

    // The steps below, while thread t is alone.
    method Begin(t: nat, a: Action)
      requires Alone(t) && threads[t].Idle? && (a.CallPush? || a.CallPop?)
      modifies threads
      ensures Alone(t) && Contents() == old(Contents())
      ensures threads[t] == if a.CallPush? then PushLoadCache(a.arg) else PopLoadStack
    {
      Start(t, a);
    }

    method Look(t: nat)
      requires Alone(t) && Looks(threads[t])
      modifies threads
      ensures Alone(t) && Contents() == old(Contents())
      ensures threads[t] == Looked(old(threads[t]), Snap(stack, stackX), Snap(nodecache, cacheX))
    {
      LoadHead(t);
    }

    method Fetch(t: nat)
      requires Alone(t) && threads[t].PopReadData?
      modifies threads
      ensures Alone(t) && Contents() == old(Contents())
      ensures threads[t] == PopLoadCache(old(threads[t]).node, old(NodeData(t)))
    {
      FetchData(t);
    }

    method Store(t: nat)
      requires Alone(t) && threads[t].PushWriteData?
      modifies data, threads
      ensures Alone(t) && Contents() == old(Contents())
      ensures threads[t] == PushLoadStack(old(threads[t]).node) && NodeData(t) == old(threads[t]).data
    {
      assert OwnerOk(Now(), threads[t]);
      StoreData(t);
    }

    // Once round the first loop of lfstack_push, with the cache not empty.
    method TryCache(t: nat, spurious: bool) returns (ok: bool)
      requires Alone(t) && threads[t].PushTop? && threads[t].orig == Snap(nodecache, cacheX) && nodecache.ptr.Node?
      modifies this, next, data, threads
      ensures Alone(t) && Contents() == old(Contents()) && nodec == old(nodec) && ok == !spurious
      ensures ok ==> threads[t].PushWriteData? && threads[t].data == old(threads[t]).data
      ensures !ok ==> threads[t] == old(threads[t]) && nodecache == old(nodecache) && cacheX == old(cacheX)
    {
      ReadSuccessor(t);
      ok := TakeFromCache(t, spurious);
    }

    // The first loop of lfstack_push: a node from the cache, or one never used.
    method Allocate(t: nat, d: Data, spurious: seq<bool>) returns (ok: bool)
      requires Alone(t) && threads[t].Idle? && nodec + 1 < WORD
      modifies this, next, data, threads
      ensures Alone(t) && Contents() == old(Contents()) && nodec <= old(nodec) + 1
      ensures ok == (|old(Contents())| < nodemax)
      ensures ok ==> threads[t].PushWriteData? && threads[t].data == d
      ensures !ok ==> threads[t].Idle?
      ensures old(nodecache.ptr.Null?) ==> nodecache == old(nodecache) && nodec == old(nodec) + 1
    {
      RoomAtRest(Now());
      BeginPush(t, d);
      var i := 0;
      ok := false;
      while !ok
        invariant Alone(t) && Contents() == old(Contents()) && i <= |spurious|
        invariant nodec == old(nodec) && (ok ==> old(nodecache.ptr.Node?))
        invariant !ok ==> threads[t] == PushTop(d, Snap(nodecache, cacheX)) && nodecache == old(nodecache)
        invariant ok ==> threads[t].PushWriteData? && threads[t].data == d
        decreases !ok, |spurious| - i
      {
        if threads[t].orig.head.ptr.Null? {
          ok := TakeFresh(t);
          return;
        }
        ok := TryCache(t, i < |spurious| && spurious[i]);
        i := if i < |spurious| then i + 1 else i;
      }
    }

    // A node never used, or the end of the call.
    method TakeFresh(t: nat) returns (ok: bool)
      requires Alone(t) && threads[t].PushTop? && threads[t].orig.head.ptr.Null? && nodec + 1 < WORD
      modifies this`nodec, threads
      ensures Alone(t) && Contents() == old(Contents()) && nodec == old(nodec) + 1
      ensures ok == (old(nodec) < nodemax)
      ensures if ok then threads[t].PushWriteData? && threads[t].data == old(threads[t].data) else threads[t].Idle?
    {
      ok := TakeUnused(t);
      if !ok { EndCall(t); }
    }

    method EndCall(t: nat)
      requires Alone(t) && (threads[t].PushDone? || threads[t].PopDone?)
      modifies threads
      ensures Alone(t) && threads[t].Idle? && Contents() == old(Contents())
    {
      Start(t, Return);
    }

    method BeginPush(t: nat, d: Data)
      requires Alone(t) && threads[t].Idle?
      modifies threads
      ensures Alone(t) && Contents() == old(Contents())
      ensures threads[t] == PushTop(d, Snap(nodecache, cacheX))
    {
      Begin(t, CallPush(d));
      Look(t);
    }

    // Once round the second loop of lfstack_push.
    method TryStack(t: nat, spurious: bool) returns (ok: bool)
      requires Alone(t) && threads[t].PushWriteNext? && threads[t].orig == Snap(stack, stackX)
      modifies this, next, data, threads
      ensures Alone(t) && nodec == old(nodec) && nodecache == old(nodecache) && ok == !spurious
      ensures !ok ==> threads[t] == old(threads[t]) && threads[t].orig == Snap(stack, stackX)
      ensures !ok ==> Contents() == old(Contents()) && NodeData(t) == old(NodeData(t))
      ensures ok ==> threads[t].PushDone? && Contents() == [old(NodeData(t))] + old(Contents())
    {
      StoreNext(t);
      ok := GiveToStack(t, spurious);
    }

    // The data of the node that thread t owns.
    ghost function NodeData(t: nat): Data
      requires t < threads.Length && Owns(threads[t])
      reads this, data, threads
    {
      if threads[t].node < data.Length then data[threads[t].node] else NIL
    }

    // The second loop of lfstack_push.
    method LinkNode(t: nat, spurious: seq<bool>)
      requires Alone(t) && threads[t].PushWriteData?
      modifies this, next, data, threads
      ensures Alone(t) && threads[t].Idle? && nodec == old(nodec) && nodecache == old(nodecache)
      ensures Contents() == [old(threads[t].data)] + old(Contents())
    {
      ghost var d := threads[t].data;
      FillNode(t);
      var i := 0;
      var ok := false;
      while !ok
        invariant Alone(t) && i <= |spurious| && nodec == old(nodec) && nodecache == old(nodecache)
        invariant !ok ==> threads[t].PushWriteNext? && threads[t].orig == Snap(stack, stackX)
        invariant !ok ==> Contents() == old(Contents()) && NodeData(t) == d
        invariant ok ==> threads[t].PushDone? && Contents() == [d] + old(Contents())
        decreases !ok, |spurious| - i
      {
        ok := TryStack(t, i < |spurious| && spurious[i]);
        i := if i < |spurious| then i + 1 else i;
      }
      EndCall(t);
    }

    method FillNode(t: nat)
      requires Alone(t) && threads[t].PushWriteData?
      modifies data, threads
      ensures Alone(t) && Contents() == old(Contents())
      ensures threads[t].PushWriteNext? && threads[t].orig == Snap(stack, stackX) && NodeData(t) == old(threads[t].data)
    {
      Store(t);
      Look(t);
    }

    // lfstack_push with no other call in flight: a bounded stack of nodemax
    // pointers.  The sequences say which exchanges fail for no reason; once they
    // are used up the exchanges behave.
    method Push(t: nat, d: Data, spurious: (seq<bool>, seq<bool>)) returns (ok: bool)
      requires Valid() && AtRest() && t < threads.Length && nodec + 1 < WORD
      modifies this, next, data, threads
      ensures Valid() && AtRest() && nodec <= old(nodec) + 1
      ensures ok == (|old(Contents())| < nodemax)
      ensures Contents() == if ok then [d] + old(Contents()) else old(Contents())
      ensures old(nodecache.ptr.Null?) ==> nodecache == old(nodecache) && nodec == old(nodec) + 1
    {
      ok := Allocate(t, d, spurious.0);
      if ok { LinkNode(t, spurious.1); }
    }

    method BeginPop(t: nat)
      requires Alone(t) && threads[t].Idle?
      modifies threads
      ensures Alone(t) && Contents() == old(Contents()) && threads[t] == PopTop(Snap(stack, stackX))
    {
      Begin(t, CallPop);
      Look(t);
    }

    // Once round the first loop of lfstack_pop, with the stack not empty.
    method TryUnlink(t: nat, spurious: bool) returns (ok: bool)
      requires Alone(t) && threads[t].PopTop? && threads[t].orig == Snap(stack, stackX) && stack.ptr.Node?
      modifies this, next, data, threads
      ensures Alone(t) && nodec == old(nodec) && ok == !spurious
      ensures !ok ==> threads[t] == old(threads[t]) && stack == old(stack) && stackX == old(stackX)
      ensures !ok ==> Contents() == old(Contents())
      ensures ok ==> threads[t].PopReadData? && old(Contents()) == [NodeData(t)] + Contents()
    {
      ReadSuccessor(t);
      ok := TakeFromStack(t, spurious);
    }

    method PopNothing(t: nat)
      requires Alone(t) && threads[t] == PopTop(Snap(stack, stackX)) && stack.ptr.Null?
      modifies threads
      ensures Alone(t) && threads[t].Idle? && Contents() == old(Contents()) == []
    {
      FindEmpty(t);
      EndCall(t);
    }

    // The first loop of lfstack_pop.
    method UnlinkNode(t: nat, spurious: seq<bool>) returns (ok: bool)
      requires Alone(t) && threads[t].Idle?
      modifies this, next, data, threads
      ensures Alone(t) && nodec == old(nodec)
      ensures ok == (old(Contents()) != [])
      ensures ok ==> threads[t].PopReadData? && old(Contents()) == [NodeData(t)] + Contents()
      ensures !ok ==> threads[t].Idle? && Contents() == []
    {
      BeginPop(t);
      var i := 0;
      ok := false;
      while !ok
        invariant Alone(t) && i <= |spurious| && nodec == old(nodec)
        invariant !ok ==> threads[t] == PopTop(Snap(stack, stackX)) && Contents() == old(Contents())
        invariant ok ==> threads[t].PopReadData? && old(Contents()) == [NodeData(t)] + Contents()
        decreases !ok, |spurious| - i
      {
        if threads[t].orig.head.ptr.Null? {
          PopNothing(t);
          return;
        }
        ok := TryUnlink(t, i < |spurious| && spurious[i]);
        i := if i < |spurious| then i + 1 else i;
      }
    }

    method BeginFree(t: nat) returns (d: Data)
      requires Alone(t) && threads[t].PopReadData?
      modifies threads
      ensures Alone(t) && Contents() == old(Contents()) && d == old(NodeData(t))
      ensures threads[t].PopWriteNext? && threads[t].orig == Snap(nodecache, cacheX)
    {
      Fetch(t);
      d := threads[t].data;
      Look(t);
    }

    // Once round the second loop of lfstack_pop.
    method TryFree(t: nat, spurious: bool) returns (ok: bool)
      requires Alone(t) && threads[t].PopWriteNext? && threads[t].orig == Snap(nodecache, cacheX)
      modifies this, next, data, threads
      ensures Alone(t) && nodec == old(nodec) && Contents() == old(Contents()) && ok == !spurious
      ensures !ok ==> threads[t].PopWriteNext? && threads[t].orig == Snap(nodecache, cacheX)
      ensures ok ==> threads[t].PopDone?
    {
      WriteNext(t);
      ok := GiveToCache(t, spurious);
    }

    method WriteNext(t: nat)
      requires Alone(t) && threads[t].PopWriteNext? && threads[t].orig == Snap(nodecache, cacheX)
      modifies this`written, next, threads
      ensures Alone(t) && Contents() == old(Contents())
      ensures threads[t].PopCacheCas? && threads[t].orig == Snap(nodecache, cacheX)
    {
      StoreNext(t);
    }

    // The second loop of lfstack_pop.
    method FreeNode(t: nat, spurious: seq<bool>) returns (d: Data)
      requires Alone(t) && threads[t].PopReadData?
      modifies this, next, data, threads
      ensures Alone(t) && threads[t].Idle? && nodec == old(nodec)
      ensures d == old(NodeData(t)) && Contents() == old(Contents())
    {
      d := BeginFree(t);
      var i := 0;
      var ok := false;
      while !ok
        invariant Alone(t) && i <= |spurious| && nodec == old(nodec) && Contents() == old(Contents())
        invariant !ok ==> threads[t].PopWriteNext? && threads[t].orig == Snap(nodecache, cacheX)
        invariant ok ==> threads[t].PopDone?
        decreases !ok, |spurious| - i
      {
        ok := TryFree(t, i < |spurious| && spurious[i]);
        i := if i < |spurious| then i + 1 else i;
      }
      EndCall(t);
    }

    // lfstack_pop with no other call in flight.
    method Pop(t: nat, spurious: (seq<bool>, seq<bool>)) returns (d: Data)
      requires Valid() && AtRest() && t < threads.Length
      modifies this, next, data, threads
      ensures Valid() && AtRest() && nodec == old(nodec)
      ensures old(Contents()) == [] ==> d == NIL && Contents() == []
      ensures old(Contents()) != [] ==> old(Contents()) == [d] + Contents()
    {
      var ok := UnlinkNode(t, spurious.0);
      d := NIL;
      if ok { d := FreeNode(t, spurious.1); }
    }

    // The walk of lfstack_destroy: it ends, and hands every pointer on the stack
    // to the destructor once, top first.
    method Destroy() returns (destroyed: seq<Data>)
      requires Valid()
      ensures destroyed == Contents()
    {
      var node := stack.ptr;
      destroyed := [];
      ghost var k := 0;
      while node.Node?
        invariant k <= |stackChain| && node == Link(stackChain, k) && destroyed == Contents()[..k]
        decreases |stackChain| - k
      {
        assert LinkedAt(next[..], stackChain, k);
        destroyed := destroyed + [data[node.index]];
        node := next[node.index];
        k := k + 1;
      }
    }
  }
}
