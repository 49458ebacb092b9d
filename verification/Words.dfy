/** Unsigned 64-bit counters: what an unsigned long holds after x increments. */
module Words {
  const WORD: nat := 0x1_0000_0000_0000_0000

  // One increment; it wraps.
  function Bump(gen: nat): nat { (gen + 1) % WORD }

  // x increments, from 0.
  function Gen(x: nat): nat {
    if x == 0 then 0 else Bump(Gen(x - 1))
  }

  lemma {:induction false} GenWraps(x: nat)
    ensures Gen(x) == x % 0x1_0000_0000_0000_0000
  {
    if x > 0 { GenWraps(x - 1); }
  }

  // Two counts that are some full turns apart: their counters look the same.
  predicate TurnsApart(x: nat, y: nat) { x > y && (x - y) % WORD == 0 }

  lemma {:induction false} SameResidue(x: nat, y: nat)
    requires y <= x
    ensures x % WORD == y % WORD <==> (x - y) % WORD == 0
  {}

  lemma {:induction false} TurnsApartIff(x: nat, y: nat)
    requires y <= x
    ensures TurnsApart(x, y) <==> x != y && Gen(x) == Gen(y)
  {
    GenWraps(x);
    GenWraps(y);
    SameResidue(x, y);
  }

  // Equal counters that are no full turns apart have counted the same.
  lemma {:induction false} NoTurn(x: nat, y: nat)
    requires y <= x && !TurnsApart(x, y) && Gen(x) == Gen(y)
    ensures x == y
  {
    TurnsApartIff(x, y);
  }

  lemma {:induction false} LessThanATurn(x: nat, y: nat)
    requires y <= x && x - y < WORD
    ensures !TurnsApart(x, y)
  {}
}
