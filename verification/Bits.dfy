/** Bitwise operations of the source's unsigned integers, on unbounded naturals. */
module Bits {

  function Pow2(m: nat): (p: nat)
    ensures p >= 1
  {
    if m == 0 then 1 else 2 * Pow2(m - 1)
  }

  ghost predicate IsPowerOfTwo(n: nat) { exists m: nat :: n == Pow2(m) }

  /** a & b */
  function And(a: nat, b: nat): nat {
    if a == 0 || b == 0 then 0
    else (if a % 2 == 1 && b % 2 == 1 then 1 else 0) + 2 * And(a / 2, b / 2)
  }

  /** a ^ b */
  function Xor(a: nat, b: nat): nat
    decreases a + b
  {
    if a == 0 then b else if b == 0 then a
    else (if a % 2 == b % 2 then 0 else 1) + 2 * Xor(a / 2, b / 2)
  }

  /** The source's test for a power of two, n > 0 && (n & (n - 1)) == 0. */
  predicate SingleBit(n: nat) { n > 0 && And(n, n - 1) == 0 }

  lemma {:induction false} SingleBitMeansPowerOfTwo(n: nat)
    ensures SingleBit(n) <==> IsPowerOfTwo(n)
  {
    if n == 1 {
      assert n == Pow2(0);
    } else if n % 2 == 1 {
      AndSelf(n / 2);
      forall m: nat ensures n != Pow2(m) {}
    } else if n > 1 {
      assert (n - 1) / 2 == n / 2 - 1;
      SingleBitMeansPowerOfTwo(n / 2);
      if m: nat :| n / 2 == Pow2(m) {
        assert n == Pow2(m + 1);
      }
      if m: nat :| n == Pow2(m) {
        assert n / 2 == Pow2(m - 1);
      }
    }
  }

  lemma {:induction false} AndSelf(n: nat)
    ensures And(n, n) == n
  {
    if n > 0 { AndSelf(n / 2); }
  }

  /** Testing and flipping the bit above which nothing is set. */
  lemma {:induction false} TopBit(a: nat, k: nat)
    requires a < 2 * Pow2(k)
    ensures And(a, Pow2(k)) != 0 <==> a >= Pow2(k)
    ensures Xor(a, Pow2(k)) == if a >= Pow2(k) then a - Pow2(k) else a + Pow2(k)
  {
    if a != 0 && k > 0 {
      assert Pow2(k) / 2 == Pow2(k - 1);
      TopBit(a / 2, k - 1);
    }
  }

  lemma {:induction false} Pow2Strict(i: nat, j: nat)
    ensures i < j <==> Pow2(i) < Pow2(j)
  {
    if i > 0 && j > 0 { Pow2Strict(i - 1, j - 1); }
  }

  lemma DivModUnique(a: int, b: nat, q: int, t: int)
    requires b > 0 && a == q * b + t && 0 <= t < b
    ensures a / b == q && a % b == t
  {
    var d := q - a / b;
    assert d * b == a % b - t;
    assert d >= 1 ==> d * b >= b;
    assert d <= -1 ==> d * b <= -(b as int);
  }
}
