/** The 64-bit permutation word seen as sixteen nibbles: nibble 0 is the number of keys, nibble
    `r + 1` the slot of the key at rank `r`. */
module Words {

  function Down(x: bv64): bv64 { x >> 4 }

  function Up(x: bv64): bv64 { x << 4 }

  function Or(x: bv64, y: bv64): bv64 { x | y }

  function Low(x: bv64): bv64 { x & 15 }

  function Clear(x: bv64): bv64 { x & !15 }

  /** A right shift by `4 * k` bits, as `k` shifts by one nibble. */
  function DownBy(x: bv64, k: nat): bv64
    decreases k
  {
    if k == 0 then x else DownBy(Down(x), k - 1)
  }

  /** A left shift by `4 * k` bits. */
  function UpBy(x: bv64, k: nat): bv64
    decreases k
  {
    if k == 0 then x else UpBy(Up(x), k - 1)
  }

  function Nib(x: bv64, k: nat): bv64 {
    Low(DownBy(x, k))
  }

  // ---- facts of 64-bit arithmetic, one operation at a time ----

  lemma OrBits(x: bv64, y: bv64)
    ensures Down(Or(x, y)) == Or(Down(x), Down(y)) && Low(Or(x, y)) == Or(Low(x), Low(y))
  {
  }

  lemma RecountBits(x: bv64, c: bv64)
    requires c < 16
    ensures Down(Or(Clear(x), c)) == Down(x) && Low(Or(Clear(x), c)) == c
  {
  }

  lemma LowBits(x: bv64)
    ensures Low(x) < 16 && Low(Low(x)) == Low(x) && Down(Low(x)) == 0
  {
  }

  lemma ZeroBits()
    ensures Down(0) == 0 && Low(0) == 0 && Up(0) == 0
  {
  }

  lemma OrZero(x: bv64)
    ensures Or(x, 0) == x && Or(0, x) == x
  {
  }

  // ---- shifts by whole nibbles ----

  lemma {:induction false} DownTail(x: bv64, k: nat)
    requires k > 0
    decreases k
    ensures DownBy(x, k) == Down(DownBy(x, k - 1))
  {
    hide Down;
    if k > 1 {
      DownTail(Down(x), k - 1);
    }
  }

  lemma {:induction false} UpTail(x: bv64, k: nat)
    requires k > 0
    decreases k
    ensures UpBy(x, k) == Up(UpBy(x, k - 1))
  {
    hide Up;
    if k > 1 {
      UpTail(Up(x), k - 1);
    }
  }

  // ---- nibbles of a result ----

  lemma {:induction false} NibZero(k: nat)
    ensures Nib(0, k) == 0
  {
    ZeroBits();
    hide Down, Low;
    if k > 0 {
      NibZero(k - 1);
    }
  }

  lemma {:induction false} NibOr(x: bv64, y: bv64, k: nat)
    ensures Nib(Or(x, y), k) == Or(Nib(x, k), Nib(y, k))
    decreases k
  {
    hide Down, Low, Or;
    OrBits(x, y);
    if k > 0 {
      NibOr(Down(x), Down(y), k - 1);
    }
  }

  lemma {:induction false} NibDown(x: bv64, a: nat, k: nat)
    ensures Nib(DownBy(x, a), k) == Nib(x, k + a)
    decreases a
  {
    hide Down, Low;
    if a > 0 {
      NibDown(Down(x), a - 1, k);
    }
  }

  const FULL: bv64 := 0xFFFF_FFFF_FFFF_FFFF

  /** All ones in the low `k` nibbles. */
  function Ones(k: nat): bv64
    requires k <= 16
  {
    DownBy(FULL, 16 - k)
  }

  lemma OnesHigh()
    ensures DownBy(FULL, 1) == 0x0FFF_FFFF_FFFF_FFFF && DownBy(FULL, 8) == 0xFFFF_FFFF
    ensures forall j :: 0 <= j < 8 ==> Low(DownBy(FULL, j)) == 15
  {
    assert DownBy(FULL, 2) == 0xFF_FFFF_FFFF_FFFF by { DownTail(FULL, 2); }
    assert DownBy(FULL, 3) == 0xF_FFFF_FFFF_FFFF by { DownTail(FULL, 3); }
    assert DownBy(FULL, 4) == 0xFFFF_FFFF_FFFF by { DownTail(FULL, 4); }
    assert DownBy(FULL, 5) == 0xFFF_FFFF_FFFF by { DownTail(FULL, 5); }
    assert DownBy(FULL, 6) == 0xFF_FFFF_FFFF by { DownTail(FULL, 6); }
    assert DownBy(FULL, 7) == 0xF_FFFF_FFFF by { DownTail(FULL, 7); }
    assert DownBy(FULL, 8) == 0xFFFF_FFFF by { DownTail(FULL, 8); }
  }

  lemma OnesTable()
    ensures DownBy(FULL, 1) == 0x0FFF_FFFF_FFFF_FFFF && DownBy(FULL, 16) == 0
    ensures forall j :: 0 <= j < 16 ==> Low(DownBy(FULL, j)) == 15
  {
    OnesHigh();
    assert DownBy(FULL, 9) == 0xFFF_FFFF by { DownTail(FULL, 9); }
    assert DownBy(FULL, 10) == 0xFF_FFFF by { DownTail(FULL, 10); }
    assert DownBy(FULL, 11) == 0xF_FFFF by { DownTail(FULL, 11); }
    assert DownBy(FULL, 12) == 0xFFFF by { DownTail(FULL, 12); }
    assert DownBy(FULL, 13) == 0xFFF by { DownTail(FULL, 13); }
    assert DownBy(FULL, 14) == 0xFF by { DownTail(FULL, 14); }
    assert DownBy(FULL, 15) == 0xF by { DownTail(FULL, 15); }
    assert DownBy(FULL, 16) == 0 by { DownTail(FULL, 16); }
  }

  lemma OnesStep(n: nat)
    requires 0 < n <= 15
    ensures Low(Ones(n)) == 15 && Down(Ones(n)) == Ones(n - 1)
  {
    hide Down, Low;
    OnesTable();
    DownTail(FULL, 17 - n);
  }

  lemma OnesTop()
    ensures Ones(15) == 0x0FFF_FFFF_FFFF_FFFF
  {
    OnesTable();
  }

  function And(x: bv64, m: bv64): bv64 { x & m }

  lemma AndBits(x: bv64, m: bv64)
    requires Low(m) == 15
    ensures Low(And(x, m)) == Low(x) && Down(And(x, m)) == And(Down(x), Down(m))
  {
  }

  /** Masking keeps the nibbles under the mask. */
  lemma {:induction false} NibMask(x: bv64, n: nat, k: nat)
    requires k < n <= 15
    ensures Nib(And(x, Ones(n)), k) == Nib(x, k)
    decreases k
  {
    hide Down, Low, And, Ones;
    OnesStep(n);
    AndBits(x, Ones(n));
    if k > 0 {
      NibMask(Down(x), n - 1, k - 1);
    }
  }

  lemma UpBits(x: bv64)
    ensures Low(Up(x)) == 0 && Down(Up(x)) == And(x, 0x0FFF_FFFF_FFFF_FFFF)
  {
  }

  lemma NibUpOne(x: bv64, k: nat)
    requires k <= 15
    ensures Nib(Up(x), k) == if k == 0 then 0 else Nib(x, k - 1)
  {
    hide Down, Low, Up, And, Ones;
    UpBits(x);
    if k > 0 {
      OnesTop();
      NibMask(x, 15, k - 1);
    }
  }

  lemma {:induction false} NibUp(x: bv64, a: nat, k: nat)
    requires k <= 15
    ensures Nib(UpBy(x, a), k) == if k < a then 0 else Nib(x, k - a)
    decreases a
  {
    hide Down, Low, Up;
    if a > 0 {
      UpTail(x, a);
      NibUp(x, a - 1, if k > 0 then k - 1 else 0);
      NibUpOne(UpBy(x, a - 1), k);
    }
  }

  // ---- the least significant nibble, replaced ----

  lemma NibRecount(x: bv64, c: bv64, k: nat)
    requires c < 16
    ensures Nib(Or(Clear(x), c), k) == if k == 0 then c else Nib(x, k)
  {
    hide Down, Low, Or, Clear;
    RecountBits(x, c);
  }

  // ---- the word is its nibbles ----

  lemma JoinBits(x: bv64, y: bv64)
    requires Low(x) == Low(y) && Down(x) == Down(y)
    ensures x == y
  {
  }

  predicate AtMost(x: bv64, y: bv64) { x <= y }

  lemma DownMonotone(x: bv64, y: bv64)
    requires AtMost(x, y)
    ensures AtMost(Down(x), Down(y))
  {
  }

  lemma {:induction false} DownByMonotone(x: bv64, y: bv64, k: nat)
    requires AtMost(x, y)
    ensures AtMost(DownBy(x, k), DownBy(y, k))
    decreases k
  {
    hide Down, AtMost;
    if k > 0 {
      DownMonotone(x, y);
      DownByMonotone(Down(x), Down(y), k - 1);
    }
  }

  lemma Empties(x: bv64)
    ensures DownBy(x, 16) == 0
  {
    hide Down, Low;
    assert x <= FULL;
    DownByMonotone(x, FULL, 16);
    OnesTable();
  }

  lemma {:induction false} SameFrom(x: bv64, y: bv64, n: nat)
    requires DownBy(x, n) == DownBy(y, n)
    requires forall k :: 0 <= k < n ==> Nib(x, k) == Nib(y, k)
    ensures x == y
    decreases n
  {
    hide Down, Low;
    if n > 0 {
      forall k | 0 <= k < n - 1
        ensures Nib(Down(x), k) == Nib(Down(y), k)
      {
        assert Nib(x, k + 1) == Nib(y, k + 1);
      }
      SameFrom(Down(x), Down(y), n - 1);
      assert Nib(x, 0) == Nib(y, 0);
      JoinBits(x, y);
    }
  }

  /** Two words with the same sixteen nibbles are equal. */
  lemma WordIsNibbles(x: bv64, y: bv64)
    requires forall k :: 0 <= k < 16 ==> Nib(x, k) == Nib(y, k)
    ensures x == y
  {
    Empties(x);
    Empties(y);
    SameFrom(x, y, 16);
  }
}
