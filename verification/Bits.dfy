/** Machine-word arithmetic on natural numbers: shifts are multiplications by
    powers of two, `|` is `Or`, and truncation to a word is `%`. */
module Bits {

  const TWO_31: int := 0x8000_0000
  const TWO_32: int := 0x1_0000_0000
  const TWO_63: int := 0x8000_0000_0000_0000
  const TWO_64: int := 0x1_0000_0000_0000_0000

  function Pow2(k: nat): (p: nat)
    ensures p > 0
  {
    if k == 0 then 1 else 2 * Pow2(k - 1)
  }

  /** Bitwise or of two words. */
  function Or(a: nat, b: nat): nat
    decreases a + b
  {
    if a == 0 then b
    else if b == 0 then a
    else (if a % 2 == 1 || b % 2 == 1 then 1 else 0) + 2 * Or(a / 2, b / 2)
  }

  /** Bit `k` of a word. */
  predicate Bit(n: nat, k: nat) {
    if k == 0 then n % 2 == 1 else Bit(n / 2, k - 1)
  }

  /** `x << k` on a 64-bit word. */
  function Shl64(x: nat, k: nat): nat {
    (x * Pow2(k)) % TWO_64
  }

  /** `x << k` on a 32-bit word. */
  function Shl32(x: nat, k: nat): nat {
    (x * Pow2(k)) % TWO_32
  }

  lemma {:induction false} Pow2Add(a: nat, b: nat)
    ensures Pow2(a + b) == Pow2(a) * Pow2(b)
  {
    if a > 0 { Pow2Add(a - 1, b); }
  }

  lemma Pow2Next(k: nat)
    ensures Pow2(k + 1) == 2 * Pow2(k)
  {
  }

  lemma Pow2OfByte()
    ensures Pow2(7) == 128 && Pow2(8) == 256
  {
    assert Pow2(4) == 16;
    Pow2Next(7);
  }

  lemma Pow2Constants()
    ensures Pow2(7) == 128
    ensures Pow2(31) == TWO_31 && Pow2(32) == TWO_32
    ensures Pow2(63) == TWO_63 && Pow2(64) == TWO_64
  {
    hide Pow2;
    Pow2OfByte();
    Pow2Add(8, 8);
    Pow2Add(16, 16);
    Pow2Add(32, 32);
    Pow2Next(31);
    Pow2Next(63);
  }

  /** `b` followed by `k` zero bits. */
  function Shifted(b: nat, k: nat): nat {
    if k == 0 then b else 2 * Shifted(b, k - 1)
  }

  lemma {:induction false} ShiftedIs(b: nat, k: nat)
    ensures Shifted(b, k) == b * Pow2(k)
  {
    if k > 0 {
      ShiftedIs(b, k - 1);
      assert b * (2 * Pow2(k - 1)) == 2 * (b * Pow2(k - 1));
    }
  }

  lemma {:induction false} OrShifted(a: nat, b: nat, k: nat)
    requires a < Pow2(k)
    ensures Or(a, Shifted(b, k)) == a + Shifted(b, k)
  {
    if k > 0 { OrShifted(a / 2, b, k - 1); }
  }

  /** Or of words that share no bit is addition. */
  lemma OrDisjoint(a: nat, b: nat, k: nat)
    requires a < Pow2(k)
    ensures Or(a, b * Pow2(k)) == a + b * Pow2(k)
  {
    hide Or, Pow2, Shifted;
    ShiftedIs(b, k);
    OrShifted(a, b, k);
  }

  lemma {:induction false} OrBound(a: nat, b: nat, k: nat)
    requires a < Pow2(k) && b < Pow2(k)
    ensures Or(a, b) < Pow2(k)
  {
    if k > 0 && a > 0 && b > 0 {
      OrBound(a / 2, b / 2, k - 1);
    }
  }

  lemma {:induction false} BitOfZero(k: nat)
    ensures !Bit(0, k)
  {
    if k > 0 { BitOfZero(k - 1); }
  }

  lemma {:induction false} BitOr(a: nat, b: nat, k: nat)
    ensures Bit(Or(a, b), k) <==> Bit(a, k) || Bit(b, k)
  {
    BitOfZero(k);
    if a > 0 && b > 0 && k > 0 {
      BitOr(a / 2, b / 2, k - 1);
      assert Or(a, b) / 2 == Or(a / 2, b / 2);
    }
  }

  lemma {:induction false} BitPow2(j: nat, k: nat)
    ensures Bit(Pow2(j), k) <==> j == k
  {
    if j == 0 {
      if k > 0 { BitOfZero(k - 1); }
    } else if k > 0 {
      BitPow2(j - 1, k - 1);
    }
  }

  /** The low `n` bits of an all-ones word, `~0 >> (w - n)`. */
  lemma {:induction false} BitOnes(n: nat, k: nat)
    ensures Bit(Pow2(n) - 1, k) <==> k < n
  {
    if n == 0 {
      BitOfZero(k);
    } else if k > 0 {
      assert (Pow2(n) - 1) / 2 == Pow2(n - 1) - 1;
      BitOnes(n - 1, k - 1);
    }
  }

  /** A word is determined by its bits. */
  lemma {:induction false} BitsDetermine(a: nat, b: nat, w: nat)
    requires a < Pow2(w) && b < Pow2(w)
    requires forall k: nat | k < w :: Bit(a, k) == Bit(b, k)
    ensures a == b
  {
    if w > 0 {
      forall k: nat | k < w - 1 ensures Bit(a / 2, k) == Bit(b / 2, k) {
        assert Bit(a, k + 1) == Bit(b, k + 1);
      }
      BitsDetermine(a / 2, b / 2, w - 1);
      assert Bit(a, 0) == Bit(b, 0);
    }
  }
}
