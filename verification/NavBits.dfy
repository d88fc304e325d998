/** Navigation words as bit strings, first transmitted bit first, and the shifts and masks of
  * Source/NavDecode/GPSOpenClNavigationDecoder.cpp on the words they spell.
  */
module NavBits {
  import opened Bits

  type BitString = seq<bool>

  function Bit(b: bool): nat { if b then 1 else 0 }

  /** The number a bit string spells: word = (word << 1) | bit for each bit in turn. */
  function WordOf(bits: BitString): nat {
    if bits == [] then 0 else 2 * WordOf(bits[..|bits| - 1]) + Bit(bits[|bits| - 1])
  }

  /** The low n bits of v as a string. */
  function Digits(v: nat, n: nat): (bits: BitString)
    ensures |bits| == n
  {
    if n == 0 then [] else Digits(v / 2, n - 1) + [v % 2 == 1]
  }

  /** v >> k */
  function ShiftRight(v: nat, k: nat): nat { if k == 0 then v else ShiftRight(v / 2, k - 1) }

  /** (v >> k) & 1 */
  function BitAt(v: nat, k: nat): bool { ShiftRight(v, k) % 2 == 1 }

  function Not(bits: BitString): (r: BitString)
    ensures |r| == |bits| && forall i | 0 <= i < |bits| :: r[i] == !bits[i]
  {
    seq(|bits|, i requires 0 <= i < |bits| => !bits[i])
  }

  function Flip(bits: BitString, mask: BitString): (r: BitString)
    requires |bits| == |mask|
    ensures |r| == |bits| && forall i | 0 <= i < |bits| :: r[i] == (bits[i] != mask[i])
  {
    seq(|bits|, i requires 0 <= i < |bits| => bits[i] != mask[i])
  }

  lemma {:induction false} WordBound(bits: BitString)
    ensures WordOf(bits) < Pow2(|bits|)
  {
    if bits != [] { WordBound(bits[..|bits| - 1]); }
  }

  lemma DoubledProduct(a: nat, p: nat)
    ensures a * (2 * p) == 2 * (a * p)
  {
  }

  lemma {:induction false} WordOfConcat(a: BitString, b: BitString)
    ensures WordOf(a + b) == WordOf(a) * Pow2(|b|) + WordOf(b)
  {
    if b == [] {
      assert a + b == a;
    } else {
      var n := |b| - 1;
      assert (a + b)[..|a + b| - 1] == a + b[..n];
      WordOfConcat(a, b[..n]);
      DoubledProduct(WordOf(a), Pow2(n));
    }
  }

  /** Of one length, a number has one spelling. */
  lemma {:induction false} SpelledOnce(a: BitString, b: BitString)
    requires |a| == |b| && WordOf(a) == WordOf(b)
    ensures a == b
  {
    if a != [] {
      var k := |a| - 1;
      assert a[k] == b[k] && WordOf(a[..k]) == WordOf(b[..k]);
      SpelledOnce(a[..k], b[..k]);
      assert a == a[..k] + [a[k]] && b == b[..k] + [b[k]];
    }
  }

  lemma {:induction false} WordOfDigits(v: nat, n: nat)
    requires v < Pow2(n)
    ensures WordOf(Digits(v, n)) == v
  {
    if n > 0 {
      WordOfDigits(v / 2, n - 1);
      assert Digits(v, n)[..n - 1] == Digits(v / 2, n - 1);
    }
  }

  lemma {:induction false} ShiftDropsBits(bits: BitString, k: nat)
    requires k <= |bits|
    ensures ShiftRight(WordOf(bits), k) == WordOf(bits[..|bits| - k])
  {
    if k == 0 {
      assert bits[..|bits|] == bits;
    } else {
      var init := bits[..|bits| - 1];
      ShiftDropsBits(init, k - 1);
      assert init[..|init| - (k - 1)] == bits[..|bits| - k];
    }
  }

  /** Masking with 2^n - 1 keeps the last n bits. */
  lemma {:induction false} MaskKeepsBits(bits: BitString, n: nat)
    requires n <= |bits|
    ensures And(WordOf(bits), Pow2(n) - 1) == WordOf(bits[|bits| - n..])
  {
    if n == 0 {
      assert bits[|bits|..] == [];
    } else {
      var init, tail := bits[..|bits| - 1], bits[|bits| - n..];
      MaskKeepsBits(init, n - 1);
      assert tail[..n - 1] == init[|init| - (n - 1)..];
      AndStep(WordOf(init), bits[|bits| - 1], Pow2(n - 1));
    }
  }

  lemma AndStep(x: nat, b: bool, p: nat)
    requires p >= 1
    ensures And(2 * x + Bit(b), 2 * p - 1) == 2 * And(x, p - 1) + Bit(b)
  {
    var a, m := 2 * x + Bit(b), 2 * p - 1;
    assert a / 2 == x && (a % 2 == 1) == b && m / 2 == p - 1 && m % 2 == 1;
  }

  /** Shifting right and masking reads a slice of the string. */
  lemma SliceOfWord(bits: BitString, s: nat, n: nat)
    requires s + n <= |bits|
    ensures And(ShiftRight(WordOf(bits), s), Pow2(n) - 1) == WordOf(bits[|bits| - s - n..|bits| - s])
  {
    ShiftDropsBits(bits, s);
    MaskKeepsBits(bits[..|bits| - s], n);
  }

  lemma BitOfWord(bits: BitString, k: nat)
    requires k < |bits|
    ensures BitAt(WordOf(bits), k) == bits[|bits| - 1 - k]
  {
    ShiftDropsBits(bits, k);
  }

  /** raw ^ mask, as strings. */
  lemma {:induction false} XorOfWords(a: BitString, b: BitString)
    requires |a| == |b|
    ensures Xor(WordOf(a), WordOf(b)) == WordOf(Flip(a, b))
  {
    if a != [] {
      var n := |a| - 1;
      var p, q := a[..n], b[..n];
      XorOfWords(p, q);
      assert Flip(a, b)[..n] == Flip(p, q);
      XorStep(WordOf(p), WordOf(q), a[n], b[n]);
    }
  }

  lemma XorStep(x: nat, y: nat, u: bool, v: bool)
    ensures Xor(2 * x + Bit(u), 2 * y + Bit(v)) == 2 * Xor(x, y) + Bit(u != v)
  {
    var a, b := 2 * x + Bit(u), 2 * y + Bit(v);
    assert a / 2 == x && b / 2 == y && (a % 2 == 1) == u && (b % 2 == 1) == v;
    XorZero(x);
    XorZero(y);
    XorZero(a);
    XorZero(b);
  }

  lemma XorZero(x: nat)
    ensures Xor(x, 0) == x && Xor(0, x) == x
  {
  }

  /** a | b */
  function Or(a: nat, b: nat): nat
    decreases a + b
  {
    if a == 0 then b else if b == 0 then a
    else (if a % 2 == 1 || b % 2 == 1 then 1 else 0) + 2 * Or(a / 2, b / 2)
  }

  /** (hi << n) | lo with lo below the shift is a sum. */
  lemma {:induction false} OrOfShifted(hi: nat, n: nat, lo: nat)
    requires lo < Pow2(n)
    ensures Or(hi * Pow2(n), lo) == hi * Pow2(n) + lo
  {
    if n > 0 {
      var a := hi * Pow2(n - 1);
      OrOfShifted(hi, n - 1, lo / 2);
      DoubledProduct(hi, Pow2(n - 1));
      assert hi * Pow2(n) == 2 * a;
      OrStep(a, lo);
    }
  }

  lemma OrStep(a: nat, lo: nat)
    ensures Or(2 * a, lo) == 2 * Or(a, lo / 2) + lo % 2
  {
    assert (2 * a) / 2 == a && (2 * a) % 2 == 0;
    if a == 0 {
    } else if lo == 0 {
      assert Or(a, 0) == a;
    }
  }

  // ----- the source's field readers

  const WORD_BITS: nat := 30

  /** Reads numBits bits of a word from bit startBit, counted from 1 at the first transmitted. */
  function ExtractUnsignedBits(val: nat, startBit: nat, numBits: nat): nat
    requires 1 <= startBit && startBit + numBits - 1 <= WORD_BITS
  {
    And(ShiftRight(val, WORD_BITS - (startBit + numBits - 1)), Pow2(numBits) - 1)
  }

  function SignedOf(u: nat, numBits: nat): int
    requires numBits >= 1
  {
    if u >= Pow2(numBits - 1) then u - Pow2(numBits) else u
  }

  /** As above, in two's complement: a set sign bit ors in every bit above, which subtracts 2^numBits. */
  function ExtractSignedBits(val: nat, startBit: nat, numBits: nat): int
    requires 1 <= startBit && 1 <= numBits && startBit + numBits - 1 <= WORD_BITS
  {
    var uval := ExtractUnsignedBits(val, startBit, numBits);
    if And(uval, Pow2(numBits - 1)) != 0 then uval - Pow2(numBits) else uval
  }

  lemma ExtractReadsSlice(bits: BitString, startBit: nat, numBits: nat)
    requires |bits| == WORD_BITS && 1 <= startBit && startBit + numBits - 1 <= WORD_BITS
    ensures ExtractUnsignedBits(WordOf(bits), startBit, numBits) == WordOf(bits[startBit - 1..startBit - 1 + numBits])
  {
    var s := WORD_BITS - (startBit + numBits - 1);
    SliceOfWord(bits, s, numBits);
  }

  lemma ExtractReadsSigned(bits: BitString, startBit: nat, numBits: nat)
    requires |bits| == WORD_BITS && 1 <= startBit && 1 <= numBits && startBit + numBits - 1 <= WORD_BITS
    ensures ExtractSignedBits(WordOf(bits), startBit, numBits)
         == SignedOf(WordOf(bits[startBit - 1..startBit - 1 + numBits]), numBits)
  {
    ExtractReadsSlice(bits, startBit, numBits);
    WordBound(bits[startBit - 1..startBit - 1 + numBits]);
    TopBit(WordOf(bits[startBit - 1..startBit - 1 + numBits]), numBits - 1);
  }

  // ----- field values and the bits that carry them

  predicate FitsSigned(v: int, n: nat)
    requires n >= 1
  {
    -(Pow2(n - 1) as int) <= v < Pow2(n - 1)
  }

  /** v in n bits of two's complement. */
  function SignedDigits(v: int, n: nat): (bits: BitString)
    requires n >= 1 && FitsSigned(v, n)
    ensures |bits| == n
  {
    Digits(if v < 0 then v + Pow2(n) else v, n)
  }

  lemma SignedRoundTrip(v: int, n: nat)
    requires n >= 1 && FitsSigned(v, n)
    ensures SignedOf(WordOf(SignedDigits(v, n)), n) == v
  {
    assert Pow2(n) == 2 * Pow2(n - 1);
    WordOfDigits(if v < 0 then v + Pow2(n) else v, n);
  }
}
