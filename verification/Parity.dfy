/** The parity of navigation words, section 20.3.5.2 of IS-GPS-200, as checkParity of
  * Source/NavDecode/GPSOpenClNavigationDecoder.cpp computes it, and the errors it catches.
  */
module Parity {
  import opened Bits
  import opened NavBits

  predicate IsRow(row: nat) { 25 <= row <= 30 }

  /** Whether parity bit row covers data bit i, counted from 1. */
  predicate Tapped(row: nat, i: nat) {
    if row == 25 then
      || i == 1 || i == 2 || i == 3 || i == 5 || i == 6 || i == 10 || i == 11 || i == 12 || i == 13
      || i == 14 || i == 17 || i == 18 || i == 20 || i == 23
    else if row == 26 then
      || i == 2 || i == 3 || i == 4 || i == 6 || i == 7 || i == 11 || i == 12 || i == 13 || i == 14
      || i == 15 || i == 18 || i == 19 || i == 21 || i == 24
    else if row == 27 then
      || i == 1 || i == 3 || i == 4 || i == 5 || i == 7 || i == 8 || i == 12 || i == 13 || i == 14
      || i == 15 || i == 16 || i == 19 || i == 20 || i == 22
    else if row == 28 then
      || i == 2 || i == 4 || i == 5 || i == 6 || i == 8 || i == 9 || i == 13 || i == 14 || i == 15
      || i == 16 || i == 17 || i == 20 || i == 21 || i == 23
    else if row == 29 then
      || i == 1 || i == 3 || i == 5 || i == 6 || i == 7 || i == 9 || i == 10 || i == 14 || i == 15
      || i == 16 || i == 17 || i == 18 || i == 21 || i == 22 || i == 24
    else
      || i == 3 || i == 5 || i == 6 || i == 8 || i == 9 || i == 10 || i == 11 || i == 13 || i == 15
      || i == 19 || i == 22 || i == 23 || i == 24
  }

  /** Rows fed by D29 of the previous word; the others take D30. */
  predicate FedByD29(row: nat) { row == 25 || row == 27 || row == 30 }

  /** The exclusive or of the tapped bits among the first n. */
  function TappedBits(d: BitString, row: nat, n: nat): bool
    requires n <= |d|
  {
    if n == 0 then false else TappedBits(d, row, n - 1) != (Tapped(row, n) && d[n - 1])
  }

  function ParityBit(d: BitString, prevD29: bool, prevD30: bool, row: nat): bool
    requires |d| == 24
  {
    (if FedByD29(row) then prevD29 else prevD30) != TappedBits(d, row, 24)
  }

  /** The source's check of a word whose data bits have been uncomplemented. */
  predicate CheckParity(word: nat, prevD29: bool, prevD30: bool) {
    var d := seq(24, i requires 0 <= i < 24 => BitAt(word, 30 - (i + 1)));
    forall row | 25 <= row <= 30 :: ParityBit(d, prevD29, prevD30, row) == BitAt(word, 30 - row)
  }

  /** raw ^ 0x3FFFFFC0 when D30 of the previous word is set. */
  function DataWord(raw: nat, prevD30: bool): nat { if prevD30 then Xor(raw, 0x3FFFFFC0) else raw }

  function DataBits(raw: BitString, prevD30: bool): (d: BitString)
    requires |raw| == 30
    ensures |d| == 24
  {
    if prevD30 then Not(raw[..24]) else raw[..24]
  }

  function Uncomplemented(raw: BitString, prevD30: bool): (bits: BitString)
    requires |raw| == 30
    ensures |bits| == 30
  {
    DataBits(raw, prevD30) + raw[24..]
  }

  function Ones(n: nat): (bits: BitString)
    ensures |bits| == n && forall i | 0 <= i < n :: bits[i]
  {
    if n == 0 then [] else Ones(n - 1) + [true]
  }

  lemma {:induction false} OnesSpell(n: nat)
    ensures WordOf(Ones(n)) == Pow2(n) - 1
  {
    if n > 0 {
      OnesSpell(n - 1);
      assert Ones(n)[..n - 1] == Ones(n - 1);
    }
  }

  lemma DataMaskSpelled()
    ensures WordOf(Ones(24) + Not(Ones(6))) == 0x3FFFFFC0
  {
    var low := Not(Ones(6));
    WordOfConcat(Ones(24), low);
    OnesSpell(24);
    assert Pow2(12) == 4096 && Pow2(24) == 16777216;
    assert Pow2(6) == 64;
    NothingSpelled(low);
  }

  lemma {:induction false} NothingSpelled(bits: BitString)
    requires forall i | 0 <= i < |bits| :: !bits[i]
    ensures WordOf(bits) == 0
  {
    if bits != [] { NothingSpelled(bits[..|bits| - 1]); }
  }

  lemma DataWordSpelled(raw: BitString, prevD30: bool)
    requires |raw| == 30
    ensures DataWord(WordOf(raw), prevD30) == WordOf(Uncomplemented(raw, prevD30))
  {
    var mask := Ones(24) + Not(Ones(6));
    DataMaskSpelled();
    XorOfWords(raw, mask);
    assert Flip(raw, mask) == Not(raw[..24]) + raw[24..];
    assert raw[..24] + raw[24..] == raw;
  }

  lemma CheckParityOfWord(bits: BitString, prevD29: bool, prevD30: bool)
    requires |bits| == 30
    ensures CheckParity(WordOf(bits), prevD29, prevD30)
       <==> forall row | 25 <= row <= 30 :: ParityBit(bits[..24], prevD29, prevD30, row) == bits[row - 1]
  {
    var word := WordOf(bits);
    forall k | 0 <= k < 30 ensures BitAt(word, k) == bits[29 - k] {
      BitOfWord(bits, k);
    }
    assert seq(24, i requires 0 <= i < 24 => BitAt(word, 30 - (i + 1))) == bits[..24];
  }

  // ----- a word and its two feedback bits, as received

  /** win is D29 and D30 of the previous word, then the 30 received bits. */
  predicate WindowOk(win: BitString)
    requires |win| == 32
  {
    CheckParity(DataWord(WordOf(win[2..]), win[1]), win[0], win[1])
  }

  predicate RowOk(win: BitString, row: nat)
    requires |win| == 32 && IsRow(row)
  {
    ParityBit(DataBits(win[2..], win[1]), win[0], win[1], row) == win[row + 1]
  }

  lemma WindowOkByBits(win: BitString)
    requires |win| == 32
    ensures WindowOk(win) <==> forall row | 25 <= row <= 30 :: RowOk(win, row)
  {
    var raw := win[2..];
    DataWordSpelled(raw, win[1]);
    var bits := Uncomplemented(raw, win[1]);
    CheckParityOfWord(bits, win[0], win[1]);
    assert bits[..24] == DataBits(raw, win[1]);
    forall row | 25 <= row <= 30
      ensures RowOk(win, row) <==> ParityBit(bits[..24], win[0], win[1], row) == bits[row - 1]
    {
      assert bits[row - 1] == win[row + 1];
    }
  }

  /** The received bits that enter equation row, D30 also through the complementing it controls. */
  predicate Enters(pos: nat, row: nat) {
    if pos == 0 then FedByD29(row)
    else if pos == 1 then row == 26 || row == 28 || row == 30
    else if pos <= 25 then Tapped(row, pos - 1)
    else pos - 1 == row
  }

  function Syndrome(win: BitString, row: nat, n: nat): bool
    requires n <= |win|
  {
    if n == 0 then false else Syndrome(win, row, n - 1) != (Enters(n - 1, row) && win[n - 1])
  }

  function OddTaps(row: nat, n: nat): bool {
    if n == 0 then false else OddTaps(row, n - 1) != (Tapped(row, n))
  }

  lemma {:induction false} TappedComplement(d: BitString, row: nat, n: nat)
    requires n <= |d|
    ensures TappedBits(Not(d), row, n) == (TappedBits(d, row, n) != OddTaps(row, n))
  {
    if n > 0 { TappedComplement(d, row, n - 1); }
  }

  lemma OddTapsAt(row: nat)
    requires IsRow(row)
    ensures OddTaps(row, 24) == (row == 29 || row == 30)
  {
    OddTapsByFour(row, 0);
    OddTapsByFour(row, 4);
    OddTapsByFour(row, 8);
    OddTapsByFour(row, 12);
    OddTapsByFour(row, 16);
    OddTapsByFour(row, 20);
  }

  lemma OddTapsByFour(row: nat, n: nat)
    ensures OddTaps(row, n + 4)
         == (OddTaps(row, n) != ((Tapped(row, n + 1) != Tapped(row, n + 2))
                                 != (Tapped(row, n + 3) != Tapped(row, n + 4))))
  {
    assert OddTaps(row, n + 2) == (OddTaps(row, n + 1) != Tapped(row, n + 2));
    assert OddTaps(row, n + 3) == (OddTaps(row, n + 2) != Tapped(row, n + 3));
  }

  lemma {:induction false} SyndromeOfData(win: BitString, row: nat, n: nat)
    requires |win| == 32 && n <= 24
    ensures Syndrome(win, row, n + 2) == (Syndrome(win, row, 2) != TappedBits(win[2..26], row, n))
  {
    if n > 0 {
      SyndromeOfData(win, row, n - 1);
      assert win[2..26][n - 1] == win[n + 1];
    }
  }

  lemma {:induction false} SyndromeOfParity(win: BitString, row: nat, n: nat)
    requires |win| == 32 && IsRow(row) && 26 <= n <= 32
    ensures Syndrome(win, row, n) == (Syndrome(win, row, 26) != (n >= row + 2 && win[row + 1]))
  {
    if n > 26 { SyndromeOfParity(win, row, n - 1); }
  }

  lemma SyndromeOfFeedback(win: BitString, row: nat)
    requires |win| == 32
    ensures Syndrome(win, row, 2) == ((Enters(0, row) && win[0]) != (Enters(1, row) && win[1]))
  {
    assert Syndrome(win, row, 1) == (Syndrome(win, row, 0) != (Enters(0, row) && win[0]));
  }

  ghost predicate Balanced(win: BitString, row: nat) { !Syndrome(win, row, |win|) }

  lemma RowBySyndrome(win: BitString, row: nat)
    requires |win| == 32 && IsRow(row)
    ensures RowOk(win, row) <==> Balanced(win, row)
  {
    var raw := win[2..];
    assert raw[..24] == win[2..26];
    SyndromeOfData(win, row, 24);
    SyndromeOfParity(win, row, 32);
    TappedComplement(raw[..24], row, 24);
    OddTapsAt(row);
    SyndromeOfFeedback(win, row);
  }

  /** A zero syndrome is what the source's check accepts. */
  lemma WindowOkBySyndrome(win: BitString)
    requires |win| == 32
    ensures WindowOk(win) <==> forall row | 25 <= row <= 30 :: Balanced(win, row)
  {
    WindowOkByBits(win);
    forall row | 25 <= row <= 30 ensures RowOk(win, row) <==> Balanced(win, row) {
      RowBySyndrome(win, row);
    }
  }

  lemma {:induction false} SyndromeIsLinear(win: BitString, e: BitString, row: nat, n: nat)
    requires |win| == |e| && n <= |win|
    ensures Syndrome(Flip(win, e), row, n) == (Syndrome(win, row, n) != Syndrome(e, row, n))
  {
    if n > 0 { SyndromeIsLinear(win, e, row, n - 1); }
  }

  lemma FlippedBalance(win: BitString, e: BitString, row: nat)
    requires |win| == |e|
    ensures Balanced(Flip(win, e), row) == (Balanced(win, row) == Balanced(e, row))
  {
    SyndromeIsLinear(win, e, row, |win|);
  }

  /** Complementing a received word together with its feedback bits changes no equation. */
  lemma ComplementBalance(win: BitString, row: nat)
    requires |win| == 32 && IsRow(row)
    ensures Balanced(Not(win), row) == Balanced(win, row)
  {
    var ones := Ones(32);
    assert Not(win) == Flip(win, ones);
    assert ones[2..26] == Ones(24);
    SyndromeOfData(ones, row, 24);
    SyndromeOfParity(ones, row, 32);
    SyndromeOfFeedback(ones, row);
    OnesTapped(row, 24);
    OddTapsAt(row);
    FlippedBalance(win, ones, row);
  }

  lemma {:induction false} OnesTapped(row: nat, n: nat)
    requires n <= 24
    ensures TappedBits(Ones(24), row, n) == OddTaps(row, n)
  {
    if n > 0 { OnesTapped(row, n - 1); }
  }

  lemma ComplementOk(win: BitString)
    requires |win| == 32
    ensures WindowOk(Not(win)) <==> WindowOk(win)
  {
    WindowOkBySyndrome(win);
    WindowOkBySyndrome(Not(win));
    forall row | 25 <= row <= 30 ensures Balanced(Not(win), row) == Balanced(win, row) {
      ComplementBalance(win, row);
    }
  }

  // ----- every column is odd, and no two are equal

  function Errors(e: BitString, n: nat): nat
    requires n <= |e|
  {
    if n == 0 then 0 else Errors(e, n - 1) + Bit(e[n - 1])
  }

  function Odd(a: bool, b: bool, c: bool, d: bool, e: bool, f: bool): bool { (a != b) != ((c != d) != (e != f)) }

  lemma ColumnIsOdd(pos: nat)
    requires pos < 32
    ensures Odd(Enters(pos, 25), Enters(pos, 26), Enters(pos, 27), Enters(pos, 28), Enters(pos, 29), Enters(pos, 30))
  {
  }

  lemma {:induction false} SyndromeParity(e: BitString, n: nat)
    requires n <= |e| && n <= 32
    ensures Odd(Syndrome(e, 25, n), Syndrome(e, 26, n), Syndrome(e, 27, n), Syndrome(e, 28, n), Syndrome(e, 29, n),
                Syndrome(e, 30, n))
         == (Errors(e, n) % 2 == 1)
  {
    if n > 0 {
      SyndromeParity(e, n - 1);
      ColumnIsOdd(n - 1);
    }
  }

  lemma ColumnsDiffer(i: nat, j: nat)
    requires i < j < 32
    ensures Enters(i, 25) != Enters(j, 25) || Enters(i, 26) != Enters(j, 26) || Enters(i, 27) != Enters(j, 27)
         || Enters(i, 28) != Enters(j, 28) || Enters(i, 29) != Enters(j, 29) || Enters(i, 30) != Enters(j, 30)
  {
  }

  lemma {:induction false} NoErrors(e: BitString, n: nat)
    requires n <= |e|
    ensures Errors(e, n) == 0 <==> forall i | 0 <= i < n :: !e[i]
  {
    if n > 0 { NoErrors(e, n - 1); }
  }

  lemma {:induction false} NoErrorsNoSyndrome(e: BitString, n: nat, row: nat)
    requires n <= |e| && Errors(e, n) == 0
    ensures !Syndrome(e, row, n)
  {
    if n > 0 { NoErrorsNoSyndrome(e, n - 1, row); }
  }

  lemma {:induction false} OneError(e: BitString, n: nat) returns (i: nat)
    requires n <= |e| && Errors(e, n) == 1
    ensures i < n && e[i] && forall row: nat :: Syndrome(e, row, n) == Enters(i, row)
  {
    if e[n - 1] {
      i := n - 1;
      forall row: nat ensures Syndrome(e, row, n) == Enters(i, row) {
        NoErrorsNoSyndrome(e, n - 1, row);
      }
    } else {
      i := OneError(e, n - 1);
    }
  }

  lemma {:induction false} TwoErrors(e: BitString, n: nat) returns (i: nat, j: nat)
    requires n <= |e| && Errors(e, n) == 2
    ensures i < j < n && forall row: nat :: Syndrome(e, row, n) == (Enters(i, row) != Enters(j, row))
  {
    if e[n - 1] {
      i := OneError(e, n - 1);
      j := n - 1;
    } else {
      i, j := TwoErrors(e, n - 1);
    }
  }

  /** One, two, three or any odd number of errors in a window leave a syndrome. */
  lemma ErrorsLeaveSyndrome(e: BitString)
    requires |e| == 32 && (Errors(e, 32) == 2 || Errors(e, 32) % 2 == 1)
    ensures exists row :: 25 <= row <= 30 && Syndrome(e, row, 32)
  {
    SyndromeParity(e, 32);
    if Errors(e, 32) == 2 {
      var i, j := TwoErrors(e, 32);
      ColumnsDiffer(i, j);
    }
    assert Syndrome(e, 25, 32) || Syndrome(e, 26, 32) || Syndrome(e, 27, 32)
        || Syndrome(e, 28, 32) || Syndrome(e, 29, 32) || Syndrome(e, 30, 32);
  }

  lemma WindowRejects(win: BitString, e: BitString)
    requires |win| == |e| == 32 && WindowOk(win) && (Errors(e, 32) == 2 || Errors(e, 32) % 2 == 1)
    ensures !WindowOk(Flip(win, e))
  {
    ErrorsLeaveSyndrome(e);
    var row :| 25 <= row <= 30 && Syndrome(e, row, 32);
    WindowOkBySyndrome(win);
    WindowOkBySyndrome(Flip(win, e));
    FlippedBalance(win, e, row);
    assert Balanced(win, row) && !Balanced(Flip(win, e), row);
  }

  // ----- chains of words

  /** Two feedback bits, then any number of words, each accepted after the last two bits before it. */
  predicate Chain(s: BitString)
    requires |s| % 30 == 2
  {
    |s| == 2 || (WindowOk(s[..32]) && Chain(s[30..]))
  }

  lemma {:induction false} ErrorsSplit(e: BitString, k: nat, n: nat)
    requires k <= n <= |e|
    ensures Errors(e, n) == Errors(e, k) + Errors(e[k..], n - k)
  {
    if n > k { ErrorsSplit(e, k, n - 1); }
  }

  lemma {:induction false} ErrorsOfPrefix(e: BitString, k: nat, n: nat)
    requires n <= k <= |e|
    ensures Errors(e[..k], n) == Errors(e, n)
  {
    if n > 0 { ErrorsOfPrefix(e, k, n - 1); }
  }

  /** An accepted chain with one to three bits flipped, anywhere, is rejected. */
  lemma {:induction false} ChainRejects(s: BitString, e: BitString)
    requires |s| == |e| && |s| % 30 == 2 && |s| > 2 && Chain(s)
    requires 1 <= Errors(e, |e|) <= 3
    ensures !Chain(Flip(s, e))
  {
    var f := e[..32];
    ErrorsSplit(e, 32, |e|);
    ErrorsOfPrefix(e, 32, 32);
    assert Flip(s, e)[..32] == Flip(s[..32], f);
    if Errors(f, 32) > 0 {
      WindowRejects(s[..32], f);
    } else {
      NoErrors(e, 32);
      NoErrors(e, 30);
      ErrorsSplit(e, 30, |e|);
      assert |s| > 32;
      assert Flip(s, e)[30..] == Flip(s[30..], e[30..]);
      ChainRejects(s[30..], e[30..]);
    }
  }

  /** The code is closed under complement. */
  lemma {:induction false} ChainOfComplement(s: BitString)
    requires |s| % 30 == 2
    ensures Chain(Not(s)) <==> Chain(s)
    decreases |s|
  {
    if |s| > 2 {
      ComplementOk(s[..32]);
      assert Not(s)[..32] == Not(s[..32]) && Not(s)[30..] == Not(s[30..]);
      ChainOfComplement(s[30..]);
    }
  }

  /** Four flips can go unseen: data bits 1, 2, 3 and 23 of a word lie in the same equations twice over. */
  lemma FourCanPass(s: BitString, e: BitString)
    requires |s| == |e| == 32 && WindowOk(s)
    requires forall i | 0 <= i < 32 :: e[i] == (i == 2 || i == 3 || i == 4 || i == 24)
    ensures Errors(e, 32) == 4 && WindowOk(Flip(s, e))
  {
    FourErrors(e, 25, 32);
    WindowOkBySyndrome(s);
    WindowOkBySyndrome(Flip(s, e));
    forall row | 25 <= row <= 30 ensures Balanced(Flip(s, e), row) {
      FourBalance(e, row);
      FlippedBalance(s, e, row);
      assert Balanced(s, row);
    }
  }

  lemma FourBalance(e: BitString, row: nat)
    requires |e| == 32 && IsRow(row)
    requires forall i | 0 <= i < 32 :: e[i] == (i == 2 || i == 3 || i == 4 || i == 24)
    ensures Balanced(e, row)
  {
    FourErrors(e, row, 32);
    FourCancel(row);
  }

  lemma FourCancel(row: nat)
    requires IsRow(row)
    ensures (Enters(2, row) != Enters(3, row)) == (Enters(4, row) != Enters(24, row))
  {
  }

  lemma {:induction false} FourErrors(e: BitString, row: nat, n: nat)
    requires |e| == 32 && n <= 32
    requires forall i | 0 <= i < 32 :: e[i] == (i == 2 || i == 3 || i == 4 || i == 24)
    ensures Errors(e, n) == Bit(n > 2) + Bit(n > 3) + Bit(n > 4) + Bit(n > 24)
    ensures Syndrome(e, row, n) == ((n > 2 && Enters(2, row))
                                    != ((n > 3 && Enters(3, row))
                                        != ((n > 4 && Enters(4, row)) != (n > 24 && Enters(24, row)))))
  {
    if n > 0 { FourErrors(e, row, n - 1); }
  }

  // ----- sending

  /** A word as sent: 24 data bits, complemented after a set D30, then their parity. */
  function EncodeWord(d: BitString, prevD29: bool, prevD30: bool): (raw: BitString)
    requires |d| == 24
    ensures |raw| == 30
  {
    (if prevD30 then Not(d) else d) + seq(6, i requires 0 <= i < 6 => ParityBit(d, prevD29, prevD30, 25 + i))
  }

  lemma EncodedWordPasses(d: BitString, prevD29: bool, prevD30: bool)
    requires |d| == 24
    ensures DataBits(EncodeWord(d, prevD29, prevD30), prevD30) == d
    ensures WindowOk([prevD29, prevD30] + EncodeWord(d, prevD29, prevD30))
  {
    var raw := EncodeWord(d, prevD29, prevD30);
    var win := [prevD29, prevD30] + raw;
    assert win[2..] == raw;
    assert DataBits(raw, prevD30) == d;
    WindowOkByBits(win);
  }

  predicate AreWords(data: seq<BitString>) { forall i | 0 <= i < |data| :: |data[i]| == 24 }

  /** Consecutive words as sent. */
  function Encode(data: seq<BitString>, prevD29: bool, prevD30: bool): (sent: BitString)
    requires AreWords(data)
    ensures |sent| == 30 * |data|
  {
    if data == [] then []
    else
      var raw := EncodeWord(data[0], prevD29, prevD30);
      raw + Encode(data[1..], raw[28], raw[29])
  }

  /** The data words the source stores while reading a chain. */
  function Stored(s: BitString): (words: seq<nat>)
    requires |s| % 30 == 2
    ensures |words| == |s| / 30
  {
    if |s| == 2 then [] else [DataWord(WordOf(s[2..32]), s[1])] + Stored(s[30..])
  }

  /** The word's data bits are d, whatever its parity bits are. */
  ghost predicate CarriesData(word: nat, d: BitString) {
    exists p: BitString :: |p| == 6 && word == WordOf(d + p)
  }

  lemma FirstSentIsRead(d: BitString, prevD29: bool, prevD30: bool, rest: BitString)
    requires |d| == 24 && |rest| % 30 == 0
    ensures var raw := EncodeWord(d, prevD29, prevD30);
            var s := [prevD29, prevD30] + raw + rest;
            && WindowOk(s[..32]) && s[30..] == [raw[28], raw[29]] + rest
            && CarriesData(DataWord(WordOf(s[2..32]), s[1]), d)
  {
    var raw := EncodeWord(d, prevD29, prevD30);
    var s := [prevD29, prevD30] + raw + rest;
    EncodedWordPasses(d, prevD29, prevD30);
    assert s[..32] == [prevD29, prevD30] + raw;
    assert s[2..32] == raw;
    DataWordSpelled(raw, prevD30);
    assert Uncomplemented(raw, prevD30) == d + raw[24..];
    assert DataWord(WordOf(raw), prevD30) == WordOf(d + raw[24..]);
  }

  lemma StoredAfter(s: BitString, rest: BitString, data: seq<BitString>)
    requires |s| % 30 == 2 && |s| == 30 * |data| + 2 && data != [] && rest == s[30..]
    requires CarriesData(DataWord(WordOf(s[2..32]), s[1]), data[0])
    requires forall i | 0 <= i < |data| - 1 :: CarriesData(Stored(rest)[i], data[1..][i])
    ensures forall i | 0 <= i < |data| :: CarriesData(Stored(s)[i], data[i])
  {
    assert Stored(s)[1..] == Stored(rest);
    forall i | 0 <= i < |data| ensures CarriesData(Stored(s)[i], data[i]) {
      if i > 0 {
        assert CarriesData(Stored(rest)[i - 1], data[1..][i - 1]);
      }
    }
  }

  /** What was sent is accepted, and what is stored are the data words with their parity. */
  lemma {:induction false} SentIsRead(data: seq<BitString>, prevD29: bool, prevD30: bool)
    requires AreWords(data)
    ensures var s := [prevD29, prevD30] + Encode(data, prevD29, prevD30);
            Chain(s) && forall i | 0 <= i < |data| :: CarriesData(Stored(s)[i], data[i])
  {
    var s := [prevD29, prevD30] + Encode(data, prevD29, prevD30);
    if data != [] {
      var raw := EncodeWord(data[0], prevD29, prevD30);
      var rest := Encode(data[1..], raw[28], raw[29]);
      assert s == [prevD29, prevD30] + raw + rest;
      FirstSentIsRead(data[0], prevD29, prevD30, rest);
      SentIsRead(data[1..], raw[28], raw[29]);
      StoredAfter(s, s[30..], data);
    }
  }

  /** Every stored word carries its data bits. */
  ghost predicate StoresData(s: BitString, data: seq<BitString>)
    requires |s| % 30 == 2
  {
    |s| == 30 * |data| + 2 && forall i | 0 <= i < |data| :: CarriesData(Stored(s)[i], data[i])
  }

  lemma WordOfComplement(raw: BitString, prevD30: bool, d: BitString)
    requires |raw| == 30 && |d| == 24 && CarriesData(DataWord(WordOf(raw), prevD30), d)
    ensures CarriesData(DataWord(WordOf(Not(raw)), !prevD30), d)
  {
    DataWordSpelled(raw, prevD30);
    DataWordSpelled(Not(raw), !prevD30);
    var p: BitString :| |p| == 6 && DataWord(WordOf(raw), prevD30) == WordOf(d + p);
    SpelledOnce(Uncomplemented(raw, prevD30), d + p);
    assert DataBits(raw, prevD30) == (d + p)[..24] == d;
    assert DataBits(Not(raw), !prevD30) == d;
  }

  /** The complement stores the same data. */
  lemma {:induction false} StoredOfComplement(s: BitString, data: seq<BitString>)
    requires |s| % 30 == 2 && AreWords(data) && StoresData(s, data)
    ensures StoresData(Not(s), data)
    decreases |s|
  {
    if data != [] {
      var rest := s[30..];
      assert Not(s)[30..] == Not(rest) && Not(s)[2..32] == Not(s[2..32]);
      WordOfComplement(s[2..32], s[1], data[0]);
      assert Stored(s)[1..] == Stored(rest);
      forall i | 0 <= i < |data| - 1 ensures CarriesData(Stored(rest)[i], data[1..][i]) {
        assert CarriesData(Stored(s)[i + 1], data[i + 1]);
      }
      StoredOfComplement(rest, data[1..]);
      StoredAfter(Not(s), Not(rest), data);
    }
  }
}
