/** The six parity equations of section 20.3.5.2 of IS-GPS-200, written out, and that they are the ones that
  * Source/NavDecode/GPSOpenClNavigationDecoder.cpp checks.
  */
module ParityEquations {
  import opened NavBits
  import opened Parity

  /** The exclusive or of the bits with these numbers, up to number n. */
  function OddAmong(d: BitString, numbers: set<nat>, n: nat): bool
    requires n <= |d|
  {
    if n == 0 then false else OddAmong(d, numbers, n - 1) != (n in numbers && d[n - 1])
  }

  lemma {:induction false} TappedAmong(d: BitString, row: nat, numbers: set<nat>, n: nat)
    requires n <= |d| && forall i: nat | 1 <= i <= n :: Tapped(row, i) <==> i in numbers
    ensures TappedBits(d, row, n) == OddAmong(d, numbers, n)
  {
    if n > 0 { TappedAmong(d, row, numbers, n - 1); }
  }

  /** The data bits of each equation, by number. */
  function DataOf(row: nat): set<nat> {
    if row == 25 then {1, 2, 3, 5, 6, 10, 11, 12, 13, 14, 17, 18, 20, 23}
    else if row == 26 then {2, 3, 4, 6, 7, 11, 12, 13, 14, 15, 18, 19, 21, 24}
    else if row == 27 then {1, 3, 4, 5, 7, 8, 12, 13, 14, 15, 16, 19, 20, 22}
    else if row == 28 then {2, 4, 5, 6, 8, 9, 13, 14, 15, 16, 17, 20, 21, 23}
    else if row == 29 then {1, 3, 5, 6, 7, 9, 10, 14, 15, 16, 17, 18, 21, 22, 24}
    else {3, 5, 6, 8, 9, 10, 11, 13, 15, 19, 22, 23, 24}
  }

  /** Each parity bit, from a feedback bit and the data bits of its equation. */
  lemma ParityEquations(d: BitString, prevD29: bool, prevD30: bool, row: nat)
    requires |d| == 24 && IsRow(row)
    ensures var feedback := if row in {25, 27, 30} then prevD29 else prevD30;
            ParityBit(d, prevD29, prevD30, row) == (feedback != OddAmong(d, DataOf(row), |d|))
  {
    TapsAreNumbers(row);
    TappedAmong(d, row, DataOf(row), |d|);
  }

  lemma TapsAreNumbers(row: nat)
    requires IsRow(row)
    ensures forall i: nat | 1 <= i <= 24 :: Tapped(row, i) <==> i in DataOf(row)
  {
  }
}
