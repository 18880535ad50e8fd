/** The counters of a version word: 29 bits that wrap around. */
module Counters {
  const MODULUS: nat := 0x2000_0000

  type Counter = c: nat | c < MODULUS

  function Inc(c: Counter): Counter { (c + 1) % MODULUS }

  /** Fewer than 2^29 steps on, a counter reads the same only if it has not moved. */
  lemma CounterMoves(a: nat, b: nat)
    requires a <= b < a + MODULUS
    ensures a % MODULUS == b % MODULUS <==> a == b
  {
    var d := b - a;
    assert (a % MODULUS + d) % MODULUS == b % MODULUS by {
      assert b == MODULUS * (a / MODULUS) + (a % MODULUS + d);
      ModShift(a / MODULUS, a % MODULUS + d);
    }
  }

  lemma ModShift(q: nat, r: nat)
    ensures (MODULUS * q + r) % MODULUS == r % MODULUS
  {
  }
}
