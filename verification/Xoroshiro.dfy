/**
 The generator xoroshiro128+ and its seeding by splitmix64. Everything is built from
 maps on words that can be undone; each is proved so on its own and the proofs are
 composed.
 */
module Xoroshiro {

  datatype State = State(s0: bv64, s1: bv64)

  const ZERO := State(0, 0)

  // ---- splitmix64 ----

  function Gamma(seed: bv64): bv64 { seed + 0x9E3779B97F4A7C15 }

  function Ungamma(z: bv64): bv64 { z - 0x9E3779B97F4A7C15 }

  function Times1(z: bv64): bv64 { z * 0xBF58476D1CE4E5B9 }

  function Times2(z: bv64): bv64 { z * 0x94D049BB133111EB }

  function Spread30(z: bv64): bv64 { z ^ (z >> 30) }

  function Spread27(z: bv64): bv64 { z ^ (z >> 27) }

  function Spread31(z: bv64): bv64 { z ^ (z >> 31) }

  function Mix(z: bv64): bv64 { Spread31(Times2(Spread27(Times1(Spread30(z))))) }

  // The factors' inverses modulo 2^64.
  function Untimes1(z: bv64): bv64 { z * 0x96DE1B173F119089 }

  function Untimes2(z: bv64): bv64 { z * 0x319642B2D24D8EC3 }

  function Gather30(z: bv64): bv64 { z ^ (z >> 30) ^ (z >> 60) }

  function Gather27(z: bv64): bv64 { z ^ (z >> 27) ^ (z >> 54) }

  function Gather31(z: bv64): bv64 { z ^ (z >> 31) ^ (z >> 62) }

  function Unmix(z: bv64): bv64 { Gather30(Untimes1(Gather27(Untimes2(Gather31(z))))) }

  lemma {:induction false} TimesRaw(z: bv64)
    ensures Untimes1(z * 0xBF58476D1CE4E5B9) == z
    ensures Times1(z * 0x96DE1B173F119089) == z
    ensures Untimes2(z * 0x94D049BB133111EB) == z
    ensures Times2(z * 0x319642B2D24D8EC3) == z
  {
  }

  lemma {:induction false} TimesInverse(z: bv64)
    ensures Untimes1(Times1(z)) == z && Times1(Untimes1(z)) == z
    ensures Untimes2(Times2(z)) == z && Times2(Untimes2(z)) == z
  {
    TimesRaw(z);
  }

  lemma {:induction false} SpreadRaw(z: bv64)
    ensures Gather30(z ^ (z >> 30)) == z
    ensures Gather27(z ^ (z >> 27)) == z
    ensures Gather31(z ^ (z >> 31)) == z
  {
  }

  lemma {:induction false} GatherRaw(z: bv64)
    ensures Spread30(z ^ (z >> 30) ^ (z >> 60)) == z
    ensures Spread27(z ^ (z >> 27) ^ (z >> 54)) == z
    ensures Spread31(z ^ (z >> 31) ^ (z >> 62)) == z
  {
  }

  lemma {:induction false} SpreadInverse(z: bv64)
    ensures Gather30(Spread30(z)) == z && Spread30(Gather30(z)) == z
    ensures Gather27(Spread27(z)) == z && Spread27(Gather27(z)) == z
    ensures Gather31(Spread31(z)) == z && Spread31(Gather31(z)) == z
  {
    SpreadRaw(z);
    GatherRaw(z);
  }

  // Mixing is a bijection on 64-bit words.
  lemma {:induction false} MixInverse(z: bv64)
    ensures Unmix(Mix(z)) == z && Mix(Unmix(z)) == z
  {
    var a, b := Spread30(z), Gather31(z);
    SpreadInverse(z);
    TimesInverse(a);
    SpreadInverse(Times1(a));
    TimesInverse(Spread27(Times1(a)));
    SpreadInverse(Times2(Spread27(Times1(a))));
    TimesInverse(b);
    SpreadInverse(Untimes2(b));
    TimesInverse(Gather27(Untimes2(b)));
    SpreadInverse(Untimes1(Gather27(Untimes2(b))));
  }

  lemma {:induction false} GammaInverse(z: bv64)
    ensures Ungamma(Gamma(z)) == z && Gamma(Ungamma(z)) == z
  {
    assert Ungamma(z + 0x9E3779B97F4A7C15) == z;
    assert Gamma(z - 0x9E3779B97F4A7C15) == z;
  }

  function Seeded(seed: bv64): State { State(Mix(Gamma(seed)), Mix(Gamma(Gamma(seed)))) }

  // The seed is read back from either word.
  lemma {:induction false} SeedRecovered(seed: bv64)
    ensures Ungamma(Unmix(Seeded(seed).s0)) == seed
    ensures Ungamma(Ungamma(Unmix(Seeded(seed).s1))) == seed
  {
    MixInverse(Gamma(seed));
    MixInverse(Gamma(Gamma(seed)));
    GammaInverse(seed);
    GammaInverse(Gamma(seed));
  }

  // One state in 2^64 comes from a seed: the second word must fit the first.
  lemma {:induction false} SeededIff(s: State)
    ensures (exists seed :: Seeded(seed) == s) <==> s.s1 == Mix(Gamma(Unmix(s.s0)))
  {
    var seed0 := Ungamma(Unmix(s.s0));
    GammaInverse(Unmix(s.s0));
    MixInverse(s.s0);
    if s.s1 == Mix(Gamma(Unmix(s.s0))) { assert Seeded(seed0) == s; }
    forall seed | Seeded(seed) == s ensures s.s1 == Mix(Gamma(Unmix(s.s0))) { MixInverse(Gamma(seed)); }
  }

  lemma {:induction false} SeededIsNotZero(seed: bv64)
    ensures Seeded(seed) != ZERO
  {
    MixInverse(Gamma(seed));
    MixInverse(Gamma(Gamma(seed)));
    GammaMoves(Gamma(seed));
  }

  lemma {:induction false} GammaMoves(z: bv64)
    ensures Gamma(z) != z
  {
    assert Gamma(z) - z == 0x9E3779B97F4A7C15;
  }

  // ---- The generator's step ----

  function Rotl(x: bv64, k: nat): bv64
    requires 0 < k < 64
  {
    (x << k) | (x >> (64 - k))
  }

  lemma {:induction false} RotlIsRotation(x: bv64)
    ensures Rotl(x, 24) == x.RotateLeft(24) && Rotl(x, 40) == x.RotateRight(24)
    ensures Rotl(x, 37) == x.RotateLeft(37) && Rotl(x, 27) == x.RotateRight(37)
  {
  }

  lemma {:induction false} RotationInverse(x: bv64)
    ensures x.RotateLeft(24).RotateRight(24) == x && x.RotateRight(24).RotateLeft(24) == x
    ensures x.RotateLeft(37).RotateRight(37) == x && x.RotateRight(37).RotateLeft(37) == x
  {
  }

  lemma {:induction false} RotlInverse(x: bv64)
    ensures Rotl(Rotl(x, 24), 40) == x && Rotl(Rotl(x, 40), 24) == x
    ensures Rotl(Rotl(x, 37), 27) == x && Rotl(Rotl(x, 27), 37) == x
  {
    RotlIsRotation(x);
    RotlIsRotation(Rotl(x, 24));
    RotlIsRotation(Rotl(x, 40));
    RotlIsRotation(Rotl(x, 37));
    RotlIsRotation(Rotl(x, 27));
    RotationInverse(x);
  }

  function Xor(a: bv64, b: bv64): bv64 { a ^ b }

  function Blend(a: bv64, t: bv64): bv64 { a ^ t ^ (t << 16) }

  lemma {:induction false} BlendRaw(a: bv64, t: bv64)
    ensures Blend(a ^ t ^ (t << 16), t) == a
    ensures Xor(a ^ t, t) == a && Xor(t, a) == a ^ t
  {
  }

  lemma {:induction false} BlendInverse(a: bv64, t: bv64)
    ensures Blend(Blend(a, t), t) == a
    ensures Xor(Xor(a, t), t) == a && Xor(t, a) == Xor(a, t)
  {
    BlendRaw(a, t);
  }

  function Next(s: State): State {
    var t := Xor(s.s1, s.s0);
    State(Blend(Rotl(s.s0, 24), t), Rotl(t, 37))
  }

  function Prev(s: State): State {
    var t := Rotl(s.s1, 27);
    var a := Rotl(Blend(s.s0, t), 40);
    State(a, Xor(t, a))
  }

  // The step is a bijection on states.
  lemma {:induction false} NextInverse(s: State)
    ensures Prev(Next(s)) == s && Next(Prev(s)) == s
  {
    var t := Xor(s.s1, s.s0);
    RotlInverse(t);
    RotlInverse(s.s0);
    BlendInverse(Rotl(s.s0, 24), t);
    BlendInverse(s.s1, s.s0);
    var u := Rotl(s.s1, 27);
    var b := Blend(s.s0, u);
    RotlInverse(s.s1);
    RotlInverse(b);
    BlendInverse(s.s0, u);
    BlendInverse(u, Rotl(b, 40));
  }

  lemma {:induction false} ZeroStays()
    ensures Next(ZERO) == ZERO
  {
    assert Xor(0, 0) == 0 && Rotl(0, 24) == 0 && Rotl(0, 37) == 0 && Blend(0, 0) == 0;
  }

  function After(s: State, n: nat): State {
    if n == 0 then s else Next(After(s, n - 1))
  }

  function Before(s: State, n: nat): State
    decreases n
  {
    if n == 0 then s else Before(Prev(s), n - 1)
  }

  lemma {:induction false} BeforeAfter(s: State, n: nat)
    ensures Before(After(s, n), n) == s
  {
    if n > 0 {
      NextInverse(After(s, n - 1));
      BeforeAfter(s, n - 1);
    }
  }

  lemma {:induction false} ZeroStaysForEver(n: nat)
    ensures After(ZERO, n) == ZERO
  {
    ZeroStays();
    if n > 0 { ZeroStaysForEver(n - 1); }
  }

  // The state that would produce nothing but zeros is never reached.
  lemma {:induction false} SeededNeverZero(seed: bv64, n: nat)
    ensures After(Seeded(seed), n) != ZERO
  {
    SeededIsNotZero(seed);
    ZeroStaysForEver(n);
    BeforeAfter(Seeded(seed), n);
    BeforeAfter(ZERO, n);
  }

  // Any later state still determines the seed, so different seeds never meet after
  // equally many steps.
  lemma {:induction false} StateTellsSeed(seed: bv64, n: nat)
    ensures Ungamma(Unmix(Before(After(Seeded(seed), n), n).s0)) == seed
  {
    BeforeAfter(Seeded(seed), n);
    SeedRecovered(seed);
  }

  lemma {:induction false} DifferentSeedsStayApart(a: bv64, b: bv64, n: nat)
    requires a != b
    ensures After(Seeded(a), n) != After(Seeded(b), n)
  {
    StateTellsSeed(a, n);
    StateTellsSeed(b, n);
  }

  function Plus(a: bv64, b: bv64): bv64 { a + b }

  function Minus(a: bv64, b: bv64): bv64 { a - b }

  lemma {:induction false} MinusRaw(a: bv64, b: bv64)
    ensures Minus(a + b, a) == b
  {
  }

  lemma {:induction false} PlusInverse(a: bv64, b: bv64)
    ensures Minus(Plus(a, b), a) == b
  {
    MinusRaw(a, b);
  }

  // Threads are given the seeds seed, seed + 1, ...
  lemma {:induction false} ThreadsStayApart(seed: bv64, i: bv64, j: bv64, n: nat)
    requires i != j
    ensures After(Seeded(Plus(seed, i)), n) != After(Seeded(Plus(seed, j)), n)
  {
    PlusInverse(seed, i);
    PlusInverse(seed, j);
    DifferentSeedsStayApart(Plus(seed, i), Plus(seed, j), n);
  }

  // ---- Every run goes round in a cycle ----

  const WORDS: nat := 0x1_0000_0000_0000_0000
  const STATES: nat := WORDS * WORDS

  function Num(x: bv64): (n: nat)
    ensures n < WORDS
  {
    x as nat
  }

  lemma {:induction false} NumInjective(x: bv64, y: bv64)
    requires Num(x) == Num(y)
    ensures x == y
  {
    NumBack(x);
    NumBack(y);
  }

  lemma {:induction false} NumBack(x: bv64)
    ensures (x as nat) as bv64 == x
  {
  }

  function Pack(a: nat, b: nat): nat { a * WORDS + b }

  function Code(s: State): (c: nat)
    ensures c < STATES
  {
    Pack(Num(s.s0), Num(s.s1))
  }

  lemma {:induction false} PackInjective(a: nat, b: nat, c: nat, d: nat)
    requires b < WORDS && d < WORDS && Pack(a, b) == Pack(c, d)
    ensures a == c && b == d
  {
  }

  lemma {:induction false} CodeTellsNumbers(s: State, t: State)
    requires Code(s) == Code(t)
    ensures Num(s.s0) == Num(t.s0) && Num(s.s1) == Num(t.s1)
  {
    PackInjective(Num(s.s0), Num(s.s1), Num(t.s0), Num(t.s1));
  }

  lemma {:induction false} CodeInjective(s: State, t: State)
    requires Code(s) == Code(t)
    ensures s == t
  {
    CodeTellsNumbers(s, t);
    NumInjective(s.s0, t.s0);
    NumInjective(s.s1, t.s1);
  }

  lemma {:induction false} AfterSum(s: State, m: nat, n: nat)
    ensures After(s, m + n) == After(After(s, m), n)
  {
    if n > 0 { AfterSum(s, m, n - 1); }
  }

  lemma {:induction false} Below(n: nat, values: set<nat>)
    requires forall x :: x in values ==> x < n
    ensures |values| <= n
  {
    if n > 0 {
      Below(n - 1, values - {n - 1});
    }
  }

  ghost predicate Distinct(f: seq<nat>) { forall i, j :: 0 <= i < j < |f| ==> f[i] != f[j] }

  ghost function Values(f: seq<nat>): set<nat> { set i | 0 <= i < |f| :: f[i] }

  lemma {:induction false} DistinctCount(f: seq<nat>)
    requires Distinct(f)
    ensures |Values(f)| == |f|
  {
    if f != [] {
      var last := |f| - 1;
      DistinctCount(f[..last]);
      assert Values(f) == Values(f[..last]) + {f[last]};
    }
  }

  lemma {:induction false} CodesOf(s: State, n: nat) returns (f: seq<nat>)
    ensures |f| == n && forall i {:trigger f[i]} :: 0 <= i < n ==> f[i] == Code(After(s, i))
  {
    f := seq(n, i requires 0 <= i < n => Code(After(s, i)));
  }

  lemma {:induction false} CodesBelow(s: State, f: seq<nat>)
    requires forall i {:trigger f[i]} :: 0 <= i < |f| ==> f[i] == Code(After(s, i))
    ensures forall i :: 0 <= i < |f| ==> f[i] < STATES
  {
  }

  lemma {:induction false} Pigeonhole(f: seq<nat>, n: nat) returns (i: nat, j: nat)
    requires |f| > n && forall k :: 0 <= k < |f| ==> f[k] < n
    ensures i < j < |f| && f[i] == f[j]
  {
    if Distinct(f) {
      DistinctCount(f);
      Below(n, Values(f));
      assert false;
    }
    i, j :| 0 <= i < j < |f| && f[i] == f[j];
  }

  // The first state to recur is the one the run started with.
  lemma {:induction false} RepeatMeansReturn(s: State, i: nat, j: nat)
    requires i <= j && After(s, i) == After(s, j)
    ensures After(s, j - i) == s
  {
    AfterSum(s, j - i, i);
    BeforeAfter(s, i);
    BeforeAfter(After(s, j - i), i);
  }

  lemma {:induction false} EveryRunReturns(s: State) returns (p: nat)
    ensures 1 <= p <= STATES && After(s, p) == s
  {
    var f := CodesOf(s, STATES + 1);
    CodesBelow(s, f);
    var i, j := Pigeonhole(f, STATES);
    CodeInjective(After(s, i), After(s, j));
    p := j - i;
    RepeatMeansReturn(s, i, j);
  }

  // ---- The constants ----

  lemma {:induction false} SpreadIs(z: bv64)
    ensures Spread30(z) == z ^ (z >> 30) && Spread27(z) == z ^ (z >> 27) && Spread31(z) == z ^ (z >> 31)
  {
  }

  lemma {:induction false} TimesIs(z: bv64)
    ensures Times1(z) == z * 0xBF58476D1CE4E5B9 && Times2(z) == z * 0x94D049BB133111EB
  {
  }

  lemma {:induction false} Mix1Is(z: bv64, w: bv64, x: bv64)
    requires w == Spread30(z) && x == w * 0xBF58476D1CE4E5B9
    ensures Times1(Spread30(z)) == x
  {
    TimesIs(w);
  }

  lemma {:induction false} Mix2Is(z: bv64, w: bv64, x: bv64)
    requires w == Spread27(z) && x == w * 0x94D049BB133111EB
    ensures Times2(Spread27(z)) == x
  {
    TimesIs(w);
  }

  // The lines of splitmix64, one after the other.
  lemma {:induction false} MixIs(z: bv64, v: bv64, x: bv64, w: bv64, y: bv64)
    requires v == z ^ (z >> 30) && x == v * 0xBF58476D1CE4E5B9
    requires w == x ^ (x >> 27) && y == w * 0x94D049BB133111EB
    ensures Mix(z) == y ^ (y >> 31)
  {
    SpreadIs(z);
    Mix1Is(z, v, x);
    SpreadIs(x);
    Mix2Is(x, w, y);
    SpreadIs(y);
  }

  lemma {:induction false} GammaIs(z: bv64)
    ensures Gamma(z) == z + 0x9E3779B97F4A7C15
  {
  }

  // The first word that a seed is spread to, and the second.
  lemma {:induction false} FirstWordIs(seed: bv64, a: bv64, v: bv64, x: bv64, w: bv64, y: bv64)
    requires a == seed + 0x9E3779B97F4A7C15
    requires v == a ^ (a >> 30) && x == v * 0xBF58476D1CE4E5B9
    requires w == x ^ (x >> 27) && y == w * 0x94D049BB133111EB
    ensures Seeded(seed).s0 == y ^ (y >> 31)
  {
    GammaIs(seed);
    MixIs(a, v, x, w, y);
  }

  lemma {:induction false} SecondWordIs(seed: bv64, a: bv64, b: bv64, v: bv64, x: bv64, w: bv64, y: bv64)
    requires a == seed + 0x9E3779B97F4A7C15 && b == a + 0x9E3779B97F4A7C15
    requires v == b ^ (b >> 30) && x == v * 0xBF58476D1CE4E5B9
    requires w == x ^ (x >> 27) && y == w * 0x94D049BB133111EB
    ensures Seeded(seed).s1 == y ^ (y >> 31)
  {
    GammaIs(seed);
    GammaIs(a);
    MixIs(b, v, x, w, y);
  }

  lemma {:induction false} RotlIs(x: bv64)
    ensures Rotl(x, 24) == (x << 24) | (x >> 40) && Rotl(x, 37) == (x << 37) | (x >> 27)
  {
  }

  lemma {:induction false} BlendIs(a: bv64, b: bv64)
    ensures Xor(a, b) == a ^ b && Blend(a, b) == a ^ b ^ (b << 16)
  {
  }

  // The next state: rotations by 24 and 37, and a shift by 16.
  lemma {:induction false} NextIs(s: State, t: bv64, u: bv64)
    requires t == s.s1 ^ s.s0 && u == (s.s0 << 24) | (s.s0 >> 40)
    ensures Next(s).s0 == u ^ t ^ (t << 16) && Next(s).s1 == (t << 37) | (t >> 27)
  {
    BlendIs(s.s1, s.s0);
    RotlIs(s.s0);
    RotlIs(t);
    BlendIs(u, t);
  }

  // ---- The program ----

  method Init(s: array<bv64>, seed: bv64)
    requires s.Length == 2
    modifies s
    ensures State(s[0], s[1]) == Seeded(seed)
  {
    var seed' := Gamma(seed);
    var z := seed';
    z := Times1(Spread30(z));
    z := Times2(Spread27(z));
    s[0] := Spread31(z);

    seed' := Gamma(seed');
    z := seed';
    z := Times1(Spread30(z));
    z := Times2(Spread27(z));
    s[1] := Spread31(z);
  }

  method Draw(s: array<bv64>) returns (result: bv64)
    requires s.Length == 2
    modifies s
    ensures result == Plus(old(s[0]), old(s[1]))
    ensures State(s[0], s[1]) == Next(old(State(s[0], s[1])))
  {
    var s0, s1 := s[0], s[1];
    result := Plus(s0, s1);
    s1 := Xor(s1, s0);
    s[0] := Blend(Rotl(s0, 24), s1);
    s[1] := Rotl(s1, 37);
  }
}
