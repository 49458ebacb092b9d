/** What every step of the lock-free stack keeps, whatever the interleaving. */
module LfStackInvariant {
  import opened LfStack
  import opened Words

  // Nodes handed out so far; the others were never used.
  function Handed(s: State): nat { if s.nodec < s.nodemax then s.nodec else s.nodemax }

  // A thread in the middle of a call owns the node it took and has not linked yet.
  predicate Owns(th: Thread) {
    th.PushWriteData? || th.PushLoadStack? || th.PushWriteNext? || th.PushStackCas?
    || th.PopReadData? || th.PopLoadCache? || th.PopWriteNext? || th.PopCacheCas?
  }

  function Owners(threads: seq<Thread>): nat {
    if threads == [] then 0 else (if Owns(threads[0]) then 1 else 0) + Owners(threads[1..])
  }

  lemma {:induction false} OwnersUpdate(threads: seq<Thread>, t: nat, th: Thread)
    requires t < |threads|
    ensures Owners(threads[t := th]) + (if Owns(threads[t]) then 1 else 0)
         == Owners(threads) + (if Owns(th) then 1 else 0)
  {
    if t == 0 {
      assert threads[t := th][1..] == threads[1..];
    } else {
      assert threads[t := th][1..] == threads[1..][t - 1 := th];
      OwnersUpdate(threads[1..], t - 1, th);
    }
  }

  ghost predicate NoDup(c: seq<nat>) { c == [] || (c[0] !in c[1..] && NoDup(c[1..])) }

  function Link(c: seq<nat>, i: nat): Ptr { if i < |c| then Node(c[i]) else Null }

  // The nodes c are linked by `next` from head to NULL.
  ghost predicate IsChain(next: seq<Ptr>, head: Ptr, c: seq<nat>) {
    && head == Link(c, 0)
    && (forall i :: 0 <= i < |c| ==> LinkedAt(next, c, i))
    && NoDup(c)
  }

  ghost predicate LinkedAt(next: seq<Ptr>, c: seq<nat>, i: nat)
    requires i < |c|
  {
    c[i] < |next| && next[c[i]] == Link(c, i + 1)
  }

  // A snapshot taken after `at` of the x exchanges on a head that now is `now`.
  ghost predicate SnapOk(s: State, orig: Snap, now: Head, x: nat) {
    && orig.at <= x
    && orig.head.gen == Gen(orig.at)
    && (orig.at == x ==> orig.head == now)
    && (orig.head.ptr.Node? ==> orig.head.ptr.index in s.written)
  }

  ghost predicate StackSnapOk(s: State, orig: Snap) { SnapOk(s, orig, s.stack, s.stackX) }

  ghost predicate CacheSnapOk(s: State, orig: Snap) { SnapOk(s, orig, s.cache, s.cacheX) }

  // The successor read through a snapshot may be garbage by now, but not while
  // the head has not moved.
  ghost predicate NextOk(s: State, orig: Snap, next: Ptr, x: nat) {
    && orig.head.ptr.Node?
    && (orig.at == x ==> next == ReadNext(s, orig.head.ptr))
  }

  ghost predicate ThreadOk(s: State, th: Thread) {
    match th
    case PushTop(_, orig) => CacheSnapOk(s, orig)
    case PushCacheCas(_, orig, next) => CacheSnapOk(s, orig) && NextOk(s, orig, next, s.cacheX)
    case PushWriteNext(_, orig) => StackSnapOk(s, orig)
    case PushStackCas(n, orig) => StackSnapOk(s, orig) && n in s.written && ReadNext(s, Node(n)) == orig.head.ptr
    case PopTop(orig) => StackSnapOk(s, orig)
    case PopStackCas(orig, next) => StackSnapOk(s, orig) && NextOk(s, orig, next, s.stackX)
    case PopLoadCache(n, d) => d == ReadData(s, n)
    case PopWriteNext(n, d, orig) => CacheSnapOk(s, orig) && d == ReadData(s, n)
    case PopCacheCas(n, d, orig) =>
      CacheSnapOk(s, orig) && d == ReadData(s, n) && n in s.written && ReadNext(s, Node(n)) == orig.head.ptr
    case PushDone(ok) => ok || Handed(s) == s.nodemax
    case _ => true
  }

  ghost predicate InChains(s: State, n: nat) { n in s.stackChain || n in s.cacheChain }

  ghost predicate Shape(s: State) {
    && |s.next| == s.nodemax && |s.data| == s.nodemax
    && s.stack.gen == Gen(s.stackX) && s.cache.gen == Gen(s.cacheX)
    && (forall n :: n in s.written ==> n < Handed(s))
  }

  ghost predicate ChainsOk(s: State) {
    && IsChain(s.next, s.stack.ptr, s.stackChain)
    && IsChain(s.next, s.cache.ptr, s.cacheChain)
    && (forall n :: n in s.stackChain ==> n in s.written && n !in s.cacheChain)
    && (forall n :: n in s.cacheChain ==> n in s.written)
  }

  ghost predicate OwnerOk(s: State, th: Thread) {
    Owns(th) ==> th.node < Handed(s) && !InChains(s, th.node)
  }

  ghost predicate Apart(a: Thread, b: Thread) { Owns(a) && Owns(b) ==> a.node != b.node }

  // An owned node is off both chains, no two threads own the same one, and no
  // node that was handed out is missing.
  ghost predicate OwnershipOk(s: State) {
    && (forall t: nat :: t < |s.threads| ==> OwnerOk(s, s.threads[t]))
    && (forall t: nat, u: nat :: t < u < |s.threads| ==> Apart(s.threads[t], s.threads[u]))
    && |s.stackChain| + |s.cacheChain| + Owners(s.threads) == Handed(s)
  }

  ghost predicate ThreadsOk(s: State) {
    forall t: nat :: t < |s.threads| ==> ThreadOk(s, s.threads[t])
  }

  ghost predicate Inv(s: State) {
    Shape(s) && ChainsOk(s) && OwnershipOk(s) && ThreadsOk(s)
  }

  lemma {:induction false} NoOwners(threads: seq<Thread>)
    requires forall t: nat :: t < |threads| ==> !Owns(threads[t])
    ensures Owners(threads) == 0
  {
    if threads != [] { NoOwners(threads[1..]); }
  }

  lemma {:induction false} InitInv(s: State)
    requires Init(s)
    ensures Inv(s)
  {
    NoOwners(s.threads);
  }

  // What thread t may do to the shared state: write to its own node `mine`, and
  // move a head only by an exchange.
  ghost predicate Touches(s: State, s': State, t: nat, mine: int) {
    && |s'.threads| == |s.threads| && |s'.next| == |s.next| && |s'.data| == |s.data|
    && s'.nodemax == s.nodemax && Handed(s) <= Handed(s')
    && (forall u: nat :: u < |s.threads| && u != t ==> s'.threads[u] == s.threads[u])
    && (forall n: nat :: n < |s.next| && n != mine ==> s'.next[n] == s.next[n])
    && (forall n: nat :: n < |s.data| && n != mine ==> s'.data[n] == s.data[n])
    && s.stackX <= s'.stackX && (s.stackX == s'.stackX ==> s'.stack == s.stack && s'.stackChain == s.stackChain)
    && s.cacheX <= s'.cacheX && (s.cacheX == s'.cacheX ==> s'.cache == s.cache && s'.cacheChain == s.cacheChain)
    && s.written <= s'.written
  }

  lemma {:induction false} OtherKept(s: State, s': State, t: nat, mine: int, u: nat)
    requires Inv(s) && Touches(s, s', t, mine)
    requires t < |s.threads| && u < |s.threads| && u != t
    requires mine >= 0 ==> !InChains(s, mine) && Owns(s.threads[t]) && s.threads[t].node == mine
    ensures ThreadOk(s', s'.threads[u])
  {
    var th := s.threads[u];
    assert ThreadOk(s, th) && OwnerOk(s, th);
    assert Apart(th, s.threads[t]) by {
      if t < u { assert Apart(s.threads[t], s.threads[u]); } else { assert Apart(s.threads[u], s.threads[t]); }
    }
  }

  lemma {:induction false} OthersKept(s: State, s': State, t: nat, mine: int)
    requires Inv(s) && Touches(s, s', t, mine) && t < |s.threads|
    requires mine >= 0 ==> Owns(s.threads[t]) && s.threads[t].node == mine
    requires ThreadOk(s', s'.threads[t])
    ensures ThreadsOk(s')
  {
    assert OwnerOk(s, s.threads[t]);
    forall u: nat | u < |s.threads| && u != t ensures ThreadOk(s', s'.threads[u]) { OtherKept(s, s', t, mine, u); }
  }

  // Ownership when thread t moves to pc and keeps the node it has, or has none.
  lemma {:induction false} OwnersKept(s: State, s': State, t: nat)
    requires Inv(s) && t < |s.threads| && |s'.threads| == |s.threads|
    requires s'.threads == s.threads[t := s'.threads[t]]
    requires Owns(s'.threads[t]) == Owns(s.threads[t])
    requires Owns(s.threads[t]) ==> s'.threads[t].node == s.threads[t].node
    requires s'.stackChain == s.stackChain && s'.cacheChain == s.cacheChain && Handed(s') == Handed(s)
    ensures OwnershipOk(s')
  {
    OwnersUpdate(s.threads, t, s'.threads[t]);
    forall u: nat | u < |s.threads| ensures OwnerOk(s', s'.threads[u]) { assert OwnerOk(s, s.threads[u]); }
    forall u: nat, v: nat | u < v < |s.threads| ensures Apart(s'.threads[u], s'.threads[v]) {
      assert Apart(s.threads[u], s.threads[v]);
    }
  }

  // A step that changes nothing but where thread t is.
  lemma {:induction false} Quiet(s: State, t: nat, pc: Thread)
    requires Inv(s) && t < |s.threads| && ThreadOk(s, pc)
    requires Owns(pc) == Owns(s.threads[t]) && (Owns(pc) ==> pc.node == s.threads[t].node)
    ensures Inv(Goto(s, t, pc))
  {
    OthersKept(s, Goto(s, t, pc), t, -1);
    OwnersKept(s, Goto(s, t, pc), t);
  }

  lemma {:induction false} ChainKept(next: seq<Ptr>, next': seq<Ptr>, head: Ptr, c: seq<nat>, n: nat)
    requires IsChain(next, head, c) && n !in c && |next'| == |next|
    requires forall m: nat :: m < |next| && m != n ==> next'[m] == next[m]
    ensures IsChain(next', head, c)
  {
    forall i | 0 <= i < |c| ensures LinkedAt(next', c, i) { assert LinkedAt(next, c, i) && c[i] in c; }
  }

  lemma {:induction false} WroteNext(s: State, t: nat, p: Ptr, pc: Thread)
    requires Inv(s) && t < |s.threads| && Owns(s.threads[t])
    requires Owns(pc) && pc.node == s.threads[t].node
    requires ThreadOk(WriteNext(s, pc.node, p), pc)
    ensures Inv(Goto(WriteNext(s, pc.node, p), t, pc))
  {
    var s' := Goto(WriteNext(s, pc.node, p), t, pc);
    assert OwnerOk(s, s.threads[t]);
    ChainKept(s.next, s'.next, s.stack.ptr, s.stackChain, pc.node);
    ChainKept(s.next, s'.next, s.cache.ptr, s.cacheChain, pc.node);
    OthersKept(s, s', t, pc.node);
    OwnersKept(s, s', t);
  }

  lemma {:induction false} WroteData(s: State, t: nat, d: Data, pc: Thread)
    requires Inv(s) && t < |s.threads| && Owns(s.threads[t])
    requires Owns(pc) && pc.node == s.threads[t].node
    requires ThreadOk(WriteData(s, pc.node, d), pc)
    ensures Inv(Goto(WriteData(s, pc.node, d), t, pc))
  {
    var s' := Goto(WriteData(s, pc.node, d), t, pc);
    assert OwnerOk(s, s.threads[t]);
    OthersKept(s, s', t, pc.node);
    OwnersKept(s, s', t);
  }

  function Linked(s: State): nat { |s.stackChain| + |s.cacheChain| }

  // A thread without a node takes n: no chain has it any more and nobody else owns it.
  lemma {:induction false} Took(s: State, s': State, t: nat, n: nat)
    requires Inv(s) && t < |s.threads| == |s'.threads| && !Owns(s.threads[t])
    requires s'.threads == s.threads[t := s'.threads[t]]
    requires Owns(s'.threads[t]) && s'.threads[t].node == n
    requires n < Handed(s') && !InChains(s', n) && Handed(s) <= Handed(s')
    requires InChains(s, n) || n >= Handed(s)
    requires forall m :: InChains(s', m) ==> InChains(s, m)
    requires Linked(s') + 1 + Handed(s) == Linked(s) + Handed(s')
    ensures OwnershipOk(s')
  {
    OwnersUpdate(s.threads, t, s'.threads[t]);
    forall u: nat | u < |s.threads| ensures OwnerOk(s', s'.threads[u]) { assert OwnerOk(s, s.threads[u]); }
    forall u: nat, v: nat | u < v < |s.threads| ensures Apart(s'.threads[u], s'.threads[v]) {
      assert Apart(s.threads[u], s.threads[v]) && OwnerOk(s, s.threads[u]) && OwnerOk(s, s.threads[v]);
    }
  }

  // A thread links the node it owned.
  lemma {:induction false} Gave(s: State, s': State, t: nat, n: nat)
    requires Inv(s) && t < |s.threads| == |s'.threads| && Owns(s.threads[t]) && s.threads[t].node == n
    requires s'.threads == s.threads[t := s'.threads[t]] && !Owns(s'.threads[t])
    requires Handed(s') == Handed(s)
    requires forall m :: InChains(s', m) ==> InChains(s, m) || m == n
    requires Linked(s') == Linked(s) + 1
    ensures OwnershipOk(s')
  {
    OwnersUpdate(s.threads, t, s'.threads[t]);
    forall u: nat | u < |s.threads| ensures OwnerOk(s', s'.threads[u]) {
      assert OwnerOk(s, s.threads[u]);
      if u < t { assert Apart(s.threads[u], s.threads[t]); } else if t < u { assert Apart(s.threads[t], s.threads[u]); }
    }
    forall u: nat, v: nat | u < v < |s.threads| ensures Apart(s'.threads[u], s'.threads[v]) {
      assert Apart(s.threads[u], s.threads[v]);
    }
  }

  lemma {:induction false} TailChain(next: seq<Ptr>, head: Ptr, c: seq<nat>)
    requires IsChain(next, head, c) && c != []
    ensures LinkedAt(next, c, 0) && IsChain(next, next[c[0]], c[1..]) && c[0] !in c[1..]
    ensures forall n :: n in c <==> n in c[1..] || n == c[0]
  {
    assert LinkedAt(next, c, 0);
    forall i | 0 <= i < |c[1..]| ensures LinkedAt(next, c[1..], i) { assert LinkedAt(next, c, i + 1); }
    assert c == [c[0]] + c[1..];
  }

  lemma {:induction false} ConsChain(next: seq<Ptr>, head: Ptr, c: seq<nat>, n: nat)
    requires IsChain(next, head, c) && n !in c && n < |next| && next[n] == head
    ensures IsChain(next, Node(n), [n] + c)
    ensures forall m :: m in [n] + c <==> m in c || m == n
  {
    var c' := [n] + c;
    forall i | 0 <= i < |c'| ensures LinkedAt(next, c', i) {
      if i > 0 { assert LinkedAt(next, c, i - 1) && Link(c', i + 1) == Link(c, i); }
    }
  }

  // An exchange that succeeds saw a head nobody moved since, so the successor it
  // installs is the true one.
  lemma {:induction false} TakeStackFresh(s: State, t: nat, orig: Snap, next: Ptr)
    requires Inv(s) && t < |s.threads| && s.threads[t] == PopStackCas(orig, next)
    requires Timely(s, t) && s.stack == orig.head
    ensures orig.at == s.stackX
    ensures s.stackChain != [] && orig.head.ptr == Node(s.stackChain[0]) && next == s.next[s.stackChain[0]]
  {
    assert ThreadOk(s, s.threads[t]);
    NoTurn(s.stackX, orig.at);
  }

  lemma {:induction false} TakeStackChains(s: State, t: nat, orig: Snap, next: Ptr)
    requires Inv(s) && t < |s.threads| && s.threads[t] == PopStackCas(orig, next)
    requires Timely(s, t) && s.stack == orig.head
    ensures orig.head.ptr.Node?
    ensures ChainsOk(TakeStack(s, t, orig, next)) && OwnershipOk(TakeStack(s, t, orig, next))
  {
    TakeStackFresh(s, t, orig, next);
    assert ThreadOk(s, s.threads[t]) && OwnerOk(s, s.threads[t]);
    TailChain(s.next, s.stack.ptr, s.stackChain);
    Took(s, TakeStack(s, t, orig, next), t, orig.head.ptr.index);
  }

  lemma {:induction false} TakeStackThreads(s: State, t: nat, orig: Snap, next: Ptr)
    requires Inv(s) && t < |s.threads| && s.threads[t] == PopStackCas(orig, next)
    requires Timely(s, t) && s.stack == orig.head
    ensures orig.head.ptr.Node?
    ensures ThreadsOk(TakeStack(s, t, orig, next))
  {
    TakeStackFresh(s, t, orig, next);
    OthersKept(s, TakeStack(s, t, orig, next), t, -1);
  }

  lemma {:induction false} TakeStackInv(s: State, t: nat, orig: Snap, next: Ptr)
    requires Inv(s) && t < |s.threads| && s.threads[t] == PopStackCas(orig, next)
    requires Timely(s, t) && s.stack == orig.head
    ensures orig.head.ptr.Node?
    ensures Inv(TakeStack(s, t, orig, next))
  {
    TakeStackFresh(s, t, orig, next);
    TakeStackChains(s, t, orig, next);
    TakeStackThreads(s, t, orig, next);
  }

  lemma {:induction false} TakeCacheFresh(s: State, t: nat, d: Data, orig: Snap, next: Ptr)
    requires Inv(s) && t < |s.threads| && s.threads[t] == PushCacheCas(d, orig, next)
    requires Timely(s, t) && s.cache == orig.head
    ensures orig.at == s.cacheX
    ensures s.cacheChain != [] && orig.head.ptr == Node(s.cacheChain[0]) && next == s.next[s.cacheChain[0]]
  {
    assert ThreadOk(s, s.threads[t]);
    NoTurn(s.cacheX, orig.at);
  }

  lemma {:induction false} TakeCacheChains(s: State, t: nat, d: Data, orig: Snap, next: Ptr)
    requires Inv(s) && t < |s.threads| && s.threads[t] == PushCacheCas(d, orig, next)
    requires Timely(s, t) && s.cache == orig.head
    ensures orig.head.ptr.Node?
    ensures ChainsOk(TakeCache(s, t, d, orig, next)) && OwnershipOk(TakeCache(s, t, d, orig, next))
  {
    TakeCacheFresh(s, t, d, orig, next);
    assert ThreadOk(s, s.threads[t]) && OwnerOk(s, s.threads[t]);
    TailChain(s.next, s.cache.ptr, s.cacheChain);
    Took(s, TakeCache(s, t, d, orig, next), t, orig.head.ptr.index);
  }

  lemma {:induction false} TakeCacheThreads(s: State, t: nat, d: Data, orig: Snap, next: Ptr)
    requires Inv(s) && t < |s.threads| && s.threads[t] == PushCacheCas(d, orig, next)
    requires Timely(s, t) && s.cache == orig.head
    ensures orig.head.ptr.Node?
    ensures ThreadsOk(TakeCache(s, t, d, orig, next))
  {
    TakeCacheFresh(s, t, d, orig, next);
    OthersKept(s, TakeCache(s, t, d, orig, next), t, -1);
  }

  lemma {:induction false} TakeCacheInv(s: State, t: nat, d: Data, orig: Snap, next: Ptr)
    requires Inv(s) && t < |s.threads| && s.threads[t] == PushCacheCas(d, orig, next)
    requires Timely(s, t) && s.cache == orig.head
    ensures orig.head.ptr.Node?
    ensures Inv(TakeCache(s, t, d, orig, next))
  {
    TakeCacheFresh(s, t, d, orig, next);
    TakeCacheChains(s, t, d, orig, next);
    TakeCacheThreads(s, t, d, orig, next);
  }

  lemma {:induction false} GiveStackFresh(s: State, t: nat, n: nat, orig: Snap)
    requires Inv(s) && t < |s.threads| && s.threads[t] == PushStackCas(n, orig)
    requires Timely(s, t) && s.stack == orig.head
    ensures orig.at == s.stackX
  {
    assert ThreadOk(s, s.threads[t]);
    NoTurn(s.stackX, orig.at);
  }

  lemma {:induction false} GiveStackChains(s: State, t: nat, n: nat, orig: Snap)
    requires Inv(s) && t < |s.threads| && s.threads[t] == PushStackCas(n, orig)
    requires Timely(s, t) && s.stack == orig.head
    ensures ChainsOk(GiveStack(s, t, n, orig)) && OwnershipOk(GiveStack(s, t, n, orig))
  {
    GiveStackFresh(s, t, n, orig);
    assert ThreadOk(s, s.threads[t]) && OwnerOk(s, s.threads[t]);
    ConsChain(s.next, s.stack.ptr, s.stackChain, n);
    Gave(s, GiveStack(s, t, n, orig), t, n);
  }

  lemma {:induction false} GiveStackThreads(s: State, t: nat, n: nat, orig: Snap)
    requires Inv(s) && t < |s.threads| && s.threads[t] == PushStackCas(n, orig)
    requires Timely(s, t) && s.stack == orig.head
    ensures ThreadsOk(GiveStack(s, t, n, orig))
  {
    GiveStackFresh(s, t, n, orig);
    OthersKept(s, GiveStack(s, t, n, orig), t, -1);
  }

  lemma {:induction false} GiveStackInv(s: State, t: nat, n: nat, orig: Snap)
    requires Inv(s) && t < |s.threads| && s.threads[t] == PushStackCas(n, orig)
    requires Timely(s, t) && s.stack == orig.head
    ensures Inv(GiveStack(s, t, n, orig))
  {
    GiveStackFresh(s, t, n, orig);
    GiveStackChains(s, t, n, orig);
    GiveStackThreads(s, t, n, orig);
  }

  lemma {:induction false} GiveCacheFresh(s: State, t: nat, n: nat, d: Data, orig: Snap)
    requires Inv(s) && t < |s.threads| && s.threads[t] == PopCacheCas(n, d, orig)
    requires Timely(s, t) && s.cache == orig.head
    ensures orig.at == s.cacheX
  {
    assert ThreadOk(s, s.threads[t]);
    NoTurn(s.cacheX, orig.at);
  }

  lemma {:induction false} GiveCacheChains(s: State, t: nat, n: nat, d: Data, orig: Snap)
    requires Inv(s) && t < |s.threads| && s.threads[t] == PopCacheCas(n, d, orig)
    requires Timely(s, t) && s.cache == orig.head
    ensures ChainsOk(GiveCache(s, t, n, d, orig)) && OwnershipOk(GiveCache(s, t, n, d, orig))
  {
    GiveCacheFresh(s, t, n, d, orig);
    assert ThreadOk(s, s.threads[t]) && OwnerOk(s, s.threads[t]);
    ConsChain(s.next, s.cache.ptr, s.cacheChain, n);
    Gave(s, GiveCache(s, t, n, d, orig), t, n);
  }

  lemma {:induction false} GiveCacheThreads(s: State, t: nat, n: nat, d: Data, orig: Snap)
    requires Inv(s) && t < |s.threads| && s.threads[t] == PopCacheCas(n, d, orig)
    requires Timely(s, t) && s.cache == orig.head
    ensures ThreadsOk(GiveCache(s, t, n, d, orig))
  {
    GiveCacheFresh(s, t, n, d, orig);
    OthersKept(s, GiveCache(s, t, n, d, orig), t, -1);
  }

  lemma {:induction false} GiveCacheInv(s: State, t: nat, n: nat, d: Data, orig: Snap)
    requires Inv(s) && t < |s.threads| && s.threads[t] == PopCacheCas(n, d, orig)
    requires Timely(s, t) && s.cache == orig.head
    ensures Inv(GiveCache(s, t, n, d, orig))
  {
    GiveCacheFresh(s, t, n, d, orig);
    GiveCacheChains(s, t, n, d, orig);
    GiveCacheThreads(s, t, n, d, orig);
  }

  lemma {:induction false} FetchAddOwners(s: State, t: nat, d: Data)
    requires Inv(s) && t < |s.threads| && s.threads[t].PushTop? && s.nodec + 1 < WORD
    ensures OwnershipOk(FetchAdd(s, t, d))
  {
    var s' := FetchAdd(s, t, d);
    if s.nodec >= s.nodemax {
      OwnersKept(s, s', t);
    } else {
      assert s.nodec !in s.written;
      Took(s, s', t, s.nodec);
    }
  }

  // Below 2^64 - 1 the counter does not wrap.
  lemma {:induction false} FetchAdds(s: State, t: nat, d: Data) returns (pc: Thread)
    requires t < |s.threads| && s.nodec + 1 < WORD
    ensures FetchAdd(s, t, d) == Goto(s, t, pc).(nodec := s.nodec + 1)
    ensures pc == if s.nodec >= s.nodemax then PushDone(false) else PushWriteData(d, s.nodec)
  {
    pc := if s.nodec >= s.nodemax then PushDone(false) else PushWriteData(d, s.nodec);
  }

  lemma {:induction false} OneMoreHanded(s: State, t: nat, pc: Thread, s': State)
    requires Inv(s) && t < |s.threads| && s' == Goto(s, t, pc).(nodec := s.nodec + 1)
    requires pc.PushWriteData? || (pc == PushDone(false) && s.nodec >= s.nodemax)
    ensures Touches(s, s', t, -1) && ThreadOk(s', s'.threads[t]) && Shape(s') && ChainsOk(s')
  {
  }

  lemma {:induction false} FetchAddInv(s: State, t: nat, d: Data)
    requires Inv(s) && t < |s.threads| && s.threads[t].PushTop? && s.nodec + 1 < WORD
    ensures Inv(FetchAdd(s, t, d))
  {
    FetchAddOwners(s, t, d);
    var pc := FetchAdds(s, t, d);
    OneMoreHanded(s, t, pc, FetchAdd(s, t, d));
    OthersKept(s, FetchAdd(s, t, d), t, -1);
  }

  predicate InAlloc(th: Thread) { th.PushLoadCache? || th.PushTop? || th.PushCacheCas? }

  lemma {:induction false} AllocInv(s: State, t: nat, spurious: bool)
    requires Inv(s) && Enabled(s, t, Run(spurious)) && Timely(s, t)
    requires InAlloc(s.threads[t])
    ensures Inv(RunStep(s, t, spurious))
  {
    var pc := RunStep(s, t, spurious).threads[t];
    assert ThreadOk(s, s.threads[t]);
    match s.threads[t]
    case PushLoadCache(_) => Quiet(s, t, pc);
    case PushTop(d, orig) => if orig.head.ptr.Null? { FetchAddInv(s, t, d); } else { Quiet(s, t, pc); }
    case PushCacheCas(d, orig, next) =>
      if s.cache == orig.head && !spurious { TakeCacheInv(s, t, d, orig, next); } else { Quiet(s, t, pc); }
  }

  lemma {:induction false} PushInv(s: State, t: nat, spurious: bool)
    requires Inv(s) && Enabled(s, t, Run(spurious)) && Timely(s, t)
    requires !InAlloc(s.threads[t]) && !InPop(s.threads[t])
    ensures Inv(RunStep(s, t, spurious))
  {
    var pc := RunStep(s, t, spurious).threads[t];
    assert ThreadOk(s, s.threads[t]);
    match s.threads[t]
    case PushWriteData(d, _) => WroteData(s, t, d, pc);
    case PushLoadStack(_) => Quiet(s, t, pc);
    case PushWriteNext(_, orig) => WroteNext(s, t, orig.head.ptr, pc);
    case PushStackCas(n, orig) =>
      if s.stack == orig.head && !spurious { GiveStackInv(s, t, n, orig); } else { Quiet(s, t, pc); }
  }

  predicate InPop(th: Thread) {
    th.PopLoadStack? || th.PopTop? || th.PopStackCas? || th.PopReadData?
    || th.PopLoadCache? || th.PopWriteNext? || th.PopCacheCas?
  }

  lemma {:induction false} PopInv(s: State, t: nat, spurious: bool)
    requires Inv(s) && Enabled(s, t, Run(spurious)) && Timely(s, t)
    requires InPop(s.threads[t])
    ensures Inv(RunStep(s, t, spurious))
  {
    if Owns(s.threads[t]) { PopFreesInv(s, t, spurious); } else { PopTakesInv(s, t, spurious); }
  }

  // The first loop of a pop.
  lemma {:induction false} PopTakesInv(s: State, t: nat, spurious: bool)
    requires Inv(s) && Enabled(s, t, Run(spurious)) && Timely(s, t)
    requires InPop(s.threads[t]) && !Owns(s.threads[t])
    ensures Inv(RunStep(s, t, spurious))
  {
    var pc := RunStep(s, t, spurious).threads[t];
    assert ThreadOk(s, s.threads[t]);
    match s.threads[t]
    case PopLoadStack => Quiet(s, t, pc);
    case PopTop(_) => Quiet(s, t, pc);
    case PopStackCas(orig, next) =>
      if s.stack == orig.head && !spurious { TakeStackInv(s, t, orig, next); } else { Quiet(s, t, pc); }
  }

  // The data, and the second loop.
  lemma {:induction false} PopFreesInv(s: State, t: nat, spurious: bool)
    requires Inv(s) && Enabled(s, t, Run(spurious)) && Timely(s, t)
    requires InPop(s.threads[t]) && Owns(s.threads[t])
    ensures Inv(RunStep(s, t, spurious))
  {
    var pc := RunStep(s, t, spurious).threads[t];
    assert ThreadOk(s, s.threads[t]) && OwnerOk(s, s.threads[t]);
    match s.threads[t]
    case PopReadData(_) => Quiet(s, t, pc);
    case PopLoadCache(_, _) => Quiet(s, t, pc);
    case PopWriteNext(_, _, orig) => WroteNext(s, t, orig.head.ptr, pc);
    case PopCacheCas(n, d, orig) =>
      if s.cache == orig.head && !spurious { GiveCacheInv(s, t, n, d, orig); } else { Quiet(s, t, pc); }
  }

  lemma {:induction false} InvStep(s: State, t: nat, a: Action)
    requires Inv(s) && Enabled(s, t, a) && (a.Run? ==> Timely(s, t))
    ensures Inv(Next(s, t, a))
  {
    match a
    case Run(spurious) =>
      if InPop(s.threads[t]) {
        PopInv(s, t, spurious);
      } else if InAlloc(s.threads[t]) {
        AllocInv(s, t, spurious);
      } else {
        PushInv(s, t, spurious);
      }
    case _ => Quiet(s, t, Next(s, t, a).threads[t]);
  }

  lemma {:induction false} InvRun(run: seq<State>, sched: Schedule, i: nat)
    requires IsRun(run, sched) && Init(run[0]) && TimelyRun(run, sched) && i < |run|
    ensures Inv(run[i])
  {
    if i == 0 {
      InitInv(run[0]);
    } else {
      InvRun(run, sched, i - 1);
      assert StepOk(run[i - 1], sched[i - 1], run[i]) && TimelyStep(run[i - 1], sched[i - 1]);
      InvStep(run[i - 1], sched[i - 1].0, sched[i - 1].1);
    }
  }

  // A step moves no thread but the one that takes it.
  lemma {:induction false} StepThreads(s: State, t: nat, a: Action)
    requires t < |s.threads|
    ensures var s' := Next(s, t, a); |s'.threads| == |s.threads| && s'.threads == s.threads[t := s'.threads[t]]
  {
    if a.Run? {
      if InPop(s.threads[t]) { PopThreads(s, t, a.spurious); } else { PushThreads(s, t, a.spurious); }
    }
  }

  lemma {:induction false} PopThreads(s: State, t: nat, spurious: bool)
    requires t < |s.threads| && InPop(s.threads[t])
    ensures var s' := RunStep(s, t, spurious);
            |s'.threads| == |s.threads| && s'.threads == s.threads[t := s'.threads[t]]
  {
  }

  lemma {:induction false} PushThreads(s: State, t: nat, spurious: bool)
    requires t < |s.threads| && !InPop(s.threads[t])
    ensures var s' := RunStep(s, t, spurious);
            |s'.threads| == |s.threads| && s'.threads == s.threads[t := s'.threads[t]]
  {
  }

  // The thread holds a snapshot of that head, between reading it and its exchange.
  predicate HasStackOrig(th: Thread) { th.PopTop? || th.PopStackCas? || th.PushWriteNext? || th.PushStackCas? }

  predicate HasCacheOrig(th: Thread) { th.PushTop? || th.PushCacheCas? || th.PopWriteNext? || th.PopCacheCas? }

  lemma {:induction false} ExchangesGrow(run: seq<State>, sched: Schedule, j: nat, i: nat)
    requires IsRun(run, sched) && j <= i < |run|
    ensures run[j].stackX <= run[i].stackX && run[j].cacheX <= run[i].cacheX
    ensures |run[j].threads| == |run[i].threads| && run[j].nodemax == run[i].nodemax
  {
    if j < i {
      ExchangesGrow(run, sched, j, i - 1);
      assert StepOk(run[i - 1], sched[i - 1], run[i]);
    }
  }
}
