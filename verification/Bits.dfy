// Bitwise operations on unsigned machine words, seen as natural numbers.
module Bits {
  const TWO_32: nat := 0x1_0000_0000
  const TWO_40: nat := 0x100_0000_0000
  const USIZE_MAX: nat := 0xFFFF_FFFF_FFFF_FFFF

  function And(a: nat, b: nat): nat {
    if a == 0 || b == 0 then 0 else 2 * And(a / 2, b / 2) + (if a % 2 == 1 && b % 2 == 1 then 1 else 0)
  }

  function Or(a: nat, b: nat): nat
    decreases a + b
  {
    if a == 0 then b
    else if b == 0 then a
    else 2 * Or(a / 2, b / 2) + (if a % 2 == 1 || b % 2 == 1 then 1 else 0)
  }

  function Pow2(k: nat): (p: nat)
    ensures p > 0
  {
    if k == 0 then 1 else 2 * Pow2(k - 1)
  }

  lemma {:induction false} Pow2Sum(a: nat, b: nat)
    ensures Pow2(a + b) == Pow2(a) * Pow2(b)
  {
    if a > 0 {
      Pow2Sum(a - 1, b);
      assert Pow2(a + b) == 2 * (Pow2(a - 1) * Pow2(b));
    }
  }

  lemma Pow2Values()
    ensures Pow2(8) == 256 && Pow2(12) == 4096 && Pow2(32) == TWO_32 && Pow2(40) == TWO_40
  {
    assert Pow2(8) == 256;
    Pow2Sum(8, 8);
    Pow2Sum(16, 16);
    Pow2Sum(32, 8);
  }

  lemma AndSelf(a: nat)
    ensures And(a, a) == a
  {
  }

  // A positive n that shares no bit with n - 1 is a power of two, and masking with n - 1 is then
  // taking the remainder modulo n.
  lemma {:induction false} MaskIsModulo(t: nat, n: nat)
    requires n > 0 && And(n, n - 1) == 0
    ensures And(t, n - 1) == t % n
  {
    if n > 1 {
      if n % 2 == 1 {
        assert (n - 1) / 2 == n / 2;
        AndSelf(n / 2);
        assert false;
      } else {
        assert (n - 1) / 2 == n / 2 - 1;
        MaskIsModulo(t / 2, n / 2);
        HalfRemainder(t, n / 2);
      }
    }
  }

  lemma HalfRemainder(t: nat, h: nat)
    requires h > 0
    ensures t % (2 * h) == 2 * ((t / 2) % h) + t % 2
  {
    var q, r := (t / 2) / h, (t / 2) % h;
    assert t / 2 == q * h + r;
    assert t == q * (2 * h) + (2 * r + t % 2) by {
      assert t == 2 * (t / 2) + t % 2;
      assert 2 * (q * h) == q * (2 * h);
    }
    RemainderUnique(t, 2 * h, q, 2 * r + t % 2);
  }

  lemma RemainderUnique(t: nat, d: nat, q: nat, r: nat)
    requires d > 0 && r < d && t == q * d + r
    ensures t % d == r && t / d == q
  {
    var q', r' := t / d, t % d;
    var k := q - q';
    assert k * d == r' - r by {
      assert k * d == q * d - q' * d;
      assert t == q' * d + r';
    }
    MultipleIsFar(k, d);
  }

  lemma MultipleIsFar(k: int, d: int)
    requires d > 0
    ensures k >= 1 ==> k * d >= d
    ensures k <= -1 ==> k * d <= -d
  {
  }

  lemma PowerOfTwoSharesNoBit(k: nat)
    ensures And(Pow2(k), Pow2(k) - 1) == 0
  {
    if k > 0 {
      PowerOfTwoSharesNoBit(k - 1);
      assert (Pow2(k) - 1) / 2 == Pow2(k - 1) - 1;
    }
  }

  // Or-ing a number below 2^k with a multiple of 2^k is adding them: packing never mixes bits.
  lemma {:induction false} OrOfDisjoint(low: nat, high: nat, k: nat)
    requires low < Pow2(k)
    ensures Or(low, high * Pow2(k)) == low + high * Pow2(k)
    decreases k
  {
    if k > 0 && low > 0 && high > 0 {
      assert high * Pow2(k) == 2 * (high * Pow2(k - 1));
      assert high * Pow2(k) / 2 == high * Pow2(k - 1);
      OrOfDisjoint(low / 2, high, k - 1);
    }
  }
}
