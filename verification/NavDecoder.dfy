/** Subframe decoding in Source/NavDecode/GPSOpenClNavigationDecoder.cpp: 300 bits of 20 prompt
  * samples each, their polarity, parity and fields, and the search for the bit edge.
  */
module NavDecoding {
  import opened Numbers
  import opened Bits
  import opened NavBits
  import opened Parity

  const PERIODS: nat := 20
  const SUBFRAME_BITS: nat := 300
  const SUBFRAME_SAMPLES: nat := 6000
  const CODE_LENGTH: real := 1023.0

  // ----- bits

  function SumFrom(x: seq<real>, base: nat, n: nat): real
    requires base + n <= |x|
  {
    if n == 0 then 0.0 else SumFrom(x, base, n - 1) + x[base + n - 1]
  }

  function BitFrom(x: seq<real>, base: nat): bool
    requires base + PERIODS <= |x|
  {
    SumFrom(x, base, PERIODS) > 0.0
  }

  function BitsFrom(x: seq<real>, base: nat, n: nat): (bits: BitString)
    requires base + PERIODS * n <= |x|
    ensures |bits| == n
    ensures forall i | 0 <= i < n :: bits[i] == BitFrom(x, base + PERIODS * i)
  {
    if n == 0 then [] else BitsFrom(x, base, n - 1) + [BitFrom(x, base + PERIODS * (n - 1))]
  }

  /** Whether the first byte reads 0x8B, or 0x74 with the polarity inverted. */
  function Polarity(bits: BitString): Option<bool>
    requires |bits| >= 8
  {
    if WordOf(bits[..8]) == 0x8B then Some(false)
    else if WordOf(bits[..8]) == 0x74 then Some(true)
    else None
  }

  function Upright(bits: BitString, inverted: bool): (r: BitString)
    ensures |r| == |bits|
  {
    if inverted then Not(bits) else bits
  }

  /** The bits the parity chain runs over: the two before the subframe when they are read, else zeros. */
  function Stream(prior: BitString, bits: BitString, inverted: bool): (s: BitString)
    requires prior == [] || |prior| == 2
    ensures |s| == |bits| + 2
  {
    (if prior == [] then [false, false] else Upright(prior, inverted)) + Upright(bits, inverted)
  }

  /** The ten words at these bits, when the preamble and every parity match. */
  function ReadWords(prior: BitString, bits: BitString): Option<seq<nat>>
    requires (prior == [] || |prior| == 2) && |bits| == SUBFRAME_BITS
  {
    match Polarity(bits)
    case None => None
    case Some(inverted) =>
      var s := Stream(prior, bits, inverted);
      if Chain(s) then Some(Stored(s)) else None
  }

  // ----- fields

  /** The raw integers of a subframe, before scaling. */
  datatype Body =
    | Clock(weekNumber: nat, iodc: nat, tgd: int, toc: nat, af2: int, af1: int, af0: int)
    | OrbitA(iode: nat, crs: int, deltaN: int, m0: int, cuc: int, ecc: nat, cus: int, sqrtA: nat, toe: nat)
    | OrbitB(cic: int, omega0: int, cis: int, i0: int, crc: int, omega: int, omegaDot: int, iode: nat, idot: int)
    | Almanac(id: nat)

  datatype Subframe = Subframe(towCount: nat, body: Body)

  const WRAP32: nat := 0x1_0000_0000

  /** (static_cast<uint32_t>(hi) << 24) | lo */
  function Join32(hi: int, lo: nat): nat { Or(((hi % WRAP32) * 0x100_0000) % WRAP32, lo) }

  /** static_cast<int32_t>(u) */
  function AsInt32(u: nat): int { if u >= 0x8000_0000 then u - WRAP32 else u }

  function SignedPair(a: nat, aStart: nat, b: nat): int
    requires 1 <= aStart <= 23
  {
    AsInt32(Join32(ExtractSignedBits(a, aStart, 8), ExtractUnsignedBits(b, 1, 24)))
  }

  function UnsignedPair(a: nat, aStart: nat, b: nat): nat
    requires 1 <= aStart <= 23
  {
    Join32(ExtractUnsignedBits(a, aStart, 8), ExtractUnsignedBits(b, 1, 24))
  }

  function DecodeBody(words: seq<nat>, id: nat): Body
    requires |words| >= 10
  {
    var w3, w4, w5, w6, w7 := words[2], words[3], words[4], words[5], words[6];
    var w8, w9, w10 := words[7], words[8], words[9];
    if id == 1 then
      Clock(ExtractUnsignedBits(w3, 1, 10),
            Or(ExtractUnsignedBits(w3, 23, 2) * 0x100, ExtractUnsignedBits(w8, 1, 8)),
            ExtractSignedBits(w7, 17, 8),
            ExtractUnsignedBits(w8, 9, 16),
            ExtractSignedBits(w9, 1, 8),
            ExtractSignedBits(w9, 9, 16),
            ExtractSignedBits(w10, 1, 22))
    else if id == 2 then
      OrbitA(ExtractUnsignedBits(w3, 1, 8),
             ExtractSignedBits(w3, 9, 16),
             ExtractSignedBits(w4, 1, 16),
             SignedPair(w4, 17, w5),
             ExtractSignedBits(w6, 1, 16),
             UnsignedPair(w6, 17, w7),
             ExtractSignedBits(w8, 1, 16),
             UnsignedPair(w8, 17, w9),
             ExtractUnsignedBits(w10, 1, 16))
    else if id == 3 then
      OrbitB(ExtractSignedBits(w3, 1, 16),
             SignedPair(w3, 17, w4),
             ExtractSignedBits(w5, 1, 16),
             SignedPair(w5, 17, w6),
             ExtractSignedBits(w7, 1, 16),
             SignedPair(w7, 17, w8),
             ExtractSignedBits(w9, 1, 24),
             ExtractUnsignedBits(w10, 1, 8),
             ExtractSignedBits(w10, 9, 14))
    else Almanac(id)
  }

  function DecodeSubframe(words: seq<nat>, searchMask: nat): Option<Subframe> {
    if |words| < 10 then None
    else
      var id := ExtractUnsignedBits(words[1], 20, 3);
      if id < 1 || id > 5 || !BitAt(searchMask, id - 1) then None
      else Some(Subframe(ExtractUnsignedBits(words[1], 1, 17), DecodeBody(words, id)))
  }

  // ----- the refined start

  function Sign(b: bool): real { if b then 1.0 else -1.0 }

  /** How well bit i of the filter matches at this start: whole blocks, and the block shared with the bit before. */
  function MatchTerm(x: seq<real>, bits: BitString, start: nat, edge: real, i: nat): real
    requires |bits| == SUBFRAME_BITS && start + SUBFRAME_SAMPLES <= |x| && i < SUBFRAME_BITS
  {
    var base := start + PERIODS * i;
    Sign(bits[i]) * SumFrom(x, base + 1, 19)
        + (if i > 0 then BoundaryTerm(edge, bits[i - 1], bits[i], x[base]) else 0.0)
  }

  function BoundaryTerm(edge: real, previous: bool, bit: bool, sample: real): real {
    (edge * Sign(previous) + (1.0 - edge) * Sign(bit)) * sample
  }

  function Match(x: seq<real>, bits: BitString, start: nat, edge: real, n: nat): real
    requires |bits| == SUBFRAME_BITS && start + SUBFRAME_SAMPLES <= |x| && n <= SUBFRAME_BITS
  {
    if n == 0 then 0.0 else Match(x, bits, start, edge, n - 1) + MatchTerm(x, bits, start, edge, n - 1)
  }

  predicate Eligible(size: nat, start: nat, candidate: int) {
    0 <= start + candidate && start + candidate + SUBFRAME_SAMPLES <= size
  }

  function Metric(x: seq<real>, bits: BitString, start: nat, edge: real, candidate: int): (m: real)
    requires |bits| == SUBFRAME_BITS && Eligible(|x|, start, candidate)
    ensures m >= 0.0
  {
    Abs(Match(x, bits, start + candidate, edge, SUBFRAME_BITS))
  }

  /** best is the first eligible candidate below limit with the largest metric. */
  ghost predicate IsBest(x: seq<real>, bits: BitString, start: nat, edge: real, limit: int, best: int)
    requires |bits| == SUBFRAME_BITS
  {
    && -2 <= best < limit && Eligible(|x|, start, best)
    && (forall c | -2 <= c < limit && Eligible(|x|, start, c) ::
        Metric(x, bits, start, edge, c) <= Metric(x, bits, start, edge, best))
    && (forall c | -2 <= c < best && Eligible(|x|, start, c) ::
        Metric(x, bits, start, edge, c) < Metric(x, bits, start, edge, best))
  }

  /** The best candidate among -2 .. limit - 1. */
  function BestCandidate(x: seq<real>, bits: BitString, start: nat, edge: real, limit: int): (best: Option<int>)
    requires |bits| == SUBFRAME_BITS && -2 <= limit
    ensures best.Some? ==> -2 <= best.value < limit && Eligible(|x|, start, best.value)
    ensures best.None? && limit > 0 ==> !Eligible(|x|, start, 0)
    decreases limit + 2
  {
    if limit == -2 then None
    else
      var c := limit - 1;
      var before := BestCandidate(x, bits, start, edge, c);
      if !Eligible(|x|, start, c) then before
      else if before.None? || Metric(x, bits, start, edge, c) > Metric(x, bits, start, edge, before.value) then Some(c)
      else before
  }

  function RefinedStart(x: seq<real>, bits: BitString, start: nat, edge: real): (r: nat)
    requires |bits| == SUBFRAME_BITS && start + SUBFRAME_SAMPLES <= |x|
    ensures start - 2 <= r <= start + 2 && r + SUBFRAME_SAMPLES <= |x|
  {
    var best := BestCandidate(x, bits, start, edge, 3);
    assert Eligible(|x|, start, 0);
    start + best.value
  }

  lemma {:induction false} BestIsBest(x: seq<real>, bits: BitString, start: nat, edge: real, limit: int)
    requires |bits| == SUBFRAME_BITS && -2 <= limit
    ensures var best := BestCandidate(x, bits, start, edge, limit);
            if best.Some? then IsBest(x, bits, start, edge, limit, best.value)
            else forall c | -2 <= c < limit :: !Eligible(|x|, start, c)
    decreases limit + 2
  {
    if limit > -2 {
      BestIsBest(x, bits, start, edge, limit - 1);
    }
  }

  /** The refined start is the first of the best-matching eligible candidates. */
  lemma RefinedStartIsBest(x: seq<real>, bits: BitString, start: nat, edge: real)
    requires |bits| == SUBFRAME_BITS && start + SUBFRAME_SAMPLES <= |x|
    ensures IsBest(x, bits, start, edge, 3, RefinedStart(x, bits, start, edge) - start)
  {
    BestIsBest(x, bits, start, edge, 3);
    assert Eligible(|x|, start, 0);
  }

  function Clamp01(r: real): real { if r < 0.0 then 0.0 else if r > 1.0 then 1.0 else r }

  function EdgeFraction(codePhases: seq<real>, start: nat): real {
    if start < |codePhases| then Clamp01((CODE_LENGTH - codePhases[start]) / CODE_LENGTH) else 0.5
  }

  // ----- one attempt

  datatype Attempt = NotEnoughData | Rejected | Decoded(words: seq<nat>, start: nat, subframe: Subframe)

  function StartSample(phase: nat, position: nat): nat { phase + PERIODS * position }

  function PriorBits(x: seq<real>, start: nat, position: nat): (prior: BitString)
    requires start <= |x| && start >= PERIODS * position
    ensures prior == [] || |prior| == 2
  {
    if position >= 2 then BitsFrom(x, start - 2 * PERIODS, 2) else []
  }

  datatype Message = Message(words: seq<nat>, subframe: Subframe)

  /** What the bits before a subframe and its own bits say, or None when they are rejected. */
  type Reader = (BitString, BitString) -> Option<Message>

  function ReadMessage(prior: BitString, bits: BitString, searchMask: nat): Option<Message>
    requires (prior == [] || |prior| == 2) && |bits| == SUBFRAME_BITS
  {
    match ReadWords(prior, bits)
    case None => None
    case Some(words) =>
      match DecodeSubframe(words, searchMask)
      case None => None
      case Some(sub) => Some(Message(words, sub))
  }

  /** The reader of the source. */
  function FieldReader(searchMask: nat): Reader {
    (prior: BitString, bits: BitString) =>
      if (prior == [] || |prior| == 2) && |bits| == SUBFRAME_BITS then ReadMessage(prior, bits, searchMask) else None
  }

  /** What a check of one bit position finds. */
  function Try(x: seq<real>, codePhases: seq<real>, phase: nat, position: nat, read: Reader): Attempt {
    var start := StartSample(phase, position);
    if start + SUBFRAME_SAMPLES > |x| then NotEnoughData
    else
      var bits := BitsFrom(x, start, SUBFRAME_BITS);
      match read(PriorBits(x, start, position), bits)
      case None => Rejected
      case Some(m) => Decoded(m.words, RefinedStart(x, bits, start, EdgeFraction(codePhases, start)), m.subframe)
  }

  // ----- small errors

  lemma WordsDifferBy(a: BitString, e: BitString)
    requires |a| == |e| == 8 && 1 <= Errors(e, 8) <= 3
    requires WordOf(a) == 0x8B || WordOf(a) == 0x74
    ensures WordOf(Flip(a, e)) != 0x8B && WordOf(Flip(a, e)) != 0x74
  {
    PreambleBits(a);
    var b := Flip(a, e);
    if WordOf(b) == 0x8B || WordOf(b) == 0x74 {
      PreambleBits(b);
      if a == b {
        forall i | 0 <= i < 8 ensures !e[i] {
          assert b[i] == (a[i] != e[i]);
        }
        NoErrors(e, 8);
      } else {
        forall i | 0 <= i < 8 ensures e[i] {
          assert b[i] == (a[i] != e[i]);
        }
        AllErrors(e, 8);
      }
    }
  }

  lemma {:induction false} AllErrors(e: BitString, n: nat)
    requires n <= |e| && forall i | 0 <= i < n :: e[i]
    ensures Errors(e, n) == n
  {
    if n > 0 { AllErrors(e, n - 1); }
  }

  const PREAMBLE: BitString := [true, false, false, false, true, false, true, true]

  /** The two preambles are each other's complement. */
  lemma PreambleBits(a: BitString)
    requires |a| == 8
    ensures WordOf(a) == 0x8B <==> a == PREAMBLE
    ensures WordOf(a) == 0x74 <==> a == Not(PREAMBLE)
  {
    EightBits(a);
    EightBits(PREAMBLE);
    EightBits(Not(PREAMBLE));
    if WordOf(a) == 0x8B {
      assert a[0] && !a[1] && !a[2] && !a[3] && a[4] && !a[5] && a[6] && a[7];
    }
    if WordOf(a) == 0x74 {
      assert !a[0] && a[1] && a[2] && a[3] && !a[4] && a[5] && !a[6] && !a[7];
    }
  }

  lemma EightBits(a: BitString)
    requires |a| == 8
    ensures WordOf(a) == 128 * Bit(a[0]) + 64 * Bit(a[1]) + 32 * Bit(a[2]) + 16 * Bit(a[3])
                         + 8 * Bit(a[4]) + 4 * Bit(a[5]) + 2 * Bit(a[6]) + Bit(a[7])
  {
    FourBits(a[..4]);
    FourBits(a[4..]);
    WordOfConcat(a[..4], a[4..]);
    assert a == a[..4] + a[4..];
    assert Pow2(4) == 16 by { assert Pow2(2) == 4; }
  }

  lemma FourBits(a: BitString)
    requires |a| == 4
    ensures WordOf(a) == 8 * Bit(a[0]) + 4 * Bit(a[1]) + 2 * Bit(a[2]) + Bit(a[3])
  {
    assert a[..3][..2] == a[..2] && a[..2][..1] == a[..1] && a[..1][..0] == [];
    assert WordOf(a[..1]) == Bit(a[0]);
    assert WordOf(a[..2]) == 2 * WordOf(a[..1]) + Bit(a[1]);
    assert WordOf(a[..3]) == 2 * WordOf(a[..2]) + Bit(a[2]);
  }

  lemma StreamFlips(prior: BitString, bits: BitString, priorErrors: BitString, bitErrors: BitString, inverted: bool)
    returns (e: BitString)
    requires |bits| == |bitErrors| && |priorErrors| == |prior| && (prior == [] || |prior| == 2)
    ensures |e| == |bits| + 2 && Errors(e, |e|) == Errors(priorErrors, |priorErrors|) + Errors(bitErrors, |bitErrors|)
    ensures Stream(Flip(prior, priorErrors), Flip(bits, bitErrors), inverted) == Flip(Stream(prior, bits, inverted), e)
  {
    var head := if prior == [] then [false, false] else priorErrors;
    e := head + bitErrors;
    assert e[..2] == head && e[2..] == bitErrors;
    ErrorsAdd(e, head, bitErrors);
    NoErrors([false, false], 2);
    UprightFlips(bits, bitErrors, inverted);
    UprightFlips(prior, priorErrors, inverted);
    var front := if prior == [] then [false, false] else Upright(prior, inverted);
    FlipConcat(front, Upright(bits, inverted), head, bitErrors);
  }

  lemma UprightFlips(bits: BitString, errors: BitString, inverted: bool)
    requires |bits| == |errors|
    ensures Upright(Flip(bits, errors), inverted) == Flip(Upright(bits, inverted), errors)
  {
  }

  lemma FlipConcat(a: BitString, b: BitString, d: BitString, e: BitString)
    requires |a| == |d| && |b| == |e|
    ensures Flip(a + b, d + e) == Flip(a, d) + Flip(b, e)
  {
  }

  lemma ErrorsAdd(e: BitString, head: BitString, rest: BitString)
    requires |e| >= 2 && e[..2] == head && e[2..] == rest
    ensures Errors(e, |e|) == Errors(head, 2) + Errors(rest, |rest|)
  {
    ErrorsSplit(e, 2, |e|);
    ErrorsOfPrefix(e, 2, 2);
  }

  lemma StreamRejects(prior: BitString, bits: BitString, priorErrors: BitString, bitErrors: BitString, inverted: bool)
    requires |bits| == |bitErrors| == SUBFRAME_BITS && |priorErrors| == |prior| && (prior == [] || |prior| == 2)
    requires 1 <= Errors(priorErrors, |priorErrors|) + Errors(bitErrors, SUBFRAME_BITS) <= 3
    requires Chain(Stream(prior, bits, inverted))
    ensures !Chain(Stream(Flip(prior, priorErrors), Flip(bits, bitErrors), inverted))
  {
    var e := StreamFlips(prior, bits, priorErrors, bitErrors, inverted);
    ChainRejects(Stream(prior, bits, inverted), e);
  }

  /** Flipping one to three of the bits read makes an accepted subframe a rejected one. */
  lemma SmallErrorsReject(prior: BitString, bits: BitString, priorErrors: BitString, bitErrors: BitString)
    requires |bits| == |bitErrors| == SUBFRAME_BITS && |priorErrors| == |prior| && (prior == [] || |prior| == 2)
    requires 1 <= Errors(priorErrors, |priorErrors|) + Errors(bitErrors, SUBFRAME_BITS) <= 3
    requires ReadWords(prior, bits).Some?
    ensures ReadWords(Flip(prior, priorErrors), Flip(bits, bitErrors)).None?
  {
    var bits' := Flip(bits, bitErrors);
    assert bits'[..8] == Flip(bits[..8], bitErrors[..8]);
    ErrorsOfPrefix(bitErrors, 8, 8);
    ErrorsSplit(bitErrors, 8, SUBFRAME_BITS);
    if Errors(bitErrors, 8) > 0 {
      WordsDifferBy(bits[..8], bitErrors[..8]);
    } else {
      NoErrors(bitErrors, 8);
      assert bits'[..8] == bits[..8];
      StreamRejects(prior, bits, priorErrors, bitErrors, Polarity(bits).value);
    }
  }

  /** Without the two bits before it, a subframe is read exactly when both have the polarity of its preamble. */
  lemma AssumedFeedbackIff(d29: bool, d30: bool, bits: BitString, inverted: bool)
    requires |bits| == SUBFRAME_BITS && Polarity(bits) == Some(inverted) && Chain([d29, d30] + bits)
    ensures ReadWords([], bits).Some? <==> d29 == inverted && d30 == inverted
  {
    var known := [d29, d30] + bits;
    ChainOfComplement(known);
    var s, a, b := Upright(known, inverted), d29 != inverted, d30 != inverted;
    assert s == [a, b] + Upright(bits, inverted);
    if a || b {
      ZeroFeedbackFails(a, b, Upright(bits, inverted));
    }
  }

  lemma ZeroFeedbackFails(d29: bool, d30: bool, bits: BitString)
    requires |bits| == SUBFRAME_BITS && Chain([d29, d30] + bits) && (d29 || d30)
    ensures !Chain([false, false] + bits)
  {
    var s := [d29, d30] + bits;
    var e := seq(|s|, i => (i == 0 && d29) || (i == 1 && d30));
    ErrorsSplit(e, 2, |e|);
    ErrorsOfPrefix(e, 2, 2);
    NoErrors(e[2..], |e| - 2);
    assert Errors(e, 1) == Bit(e[0]) && Errors(e, 2) == Errors(e, 1) + Bit(e[1]);
    assert Flip(s, e) == [false, false] + bits;
    ChainRejects(s, e);
  }

  /** The same at the level of prompt samples. */
  lemma FlippedSamplesReject(x: seq<real>, y: seq<real>, codePhases: seq<real>, phase: nat, position: nat,
                             searchMask: nat, priorErrors: BitString, bitErrors: BitString)
    requires Try(x, codePhases, phase, position, FieldReader(searchMask)).Decoded? && |y| >= |x|
    requires var start := StartSample(phase, position);
             && |bitErrors| == SUBFRAME_BITS && |priorErrors| == |PriorBits(x, start, position)|
             && BitsFrom(y, start, SUBFRAME_BITS) == Flip(BitsFrom(x, start, SUBFRAME_BITS), bitErrors)
             && PriorBits(y, start, position) == Flip(PriorBits(x, start, position), priorErrors)
    requires 1 <= Errors(priorErrors, |priorErrors|) + Errors(bitErrors, SUBFRAME_BITS) <= 3
    ensures Try(y, codePhases, phase, position, FieldReader(searchMask)) == Rejected
  {
    var start := StartSample(phase, position);
    SmallErrorsReject(PriorBits(x, start, position), BitsFrom(x, start, SUBFRAME_BITS), priorErrors, bitErrors);
  }

  // ----- sending a subframe

  predicate FitsUnsigned(v: nat, n: nat) { v < Pow2(n) }

  /** The field widths of sections 20.3.3.3.1 and 20.3.3.4.1 of IS-GPS-200. */
  predicate BodyFits(b: Body) {
    match b
    case Clock(week, iodc, tgd, toc, af2, af1, af0) =>
      && FitsUnsigned(week, 10) && FitsUnsigned(iodc, 10) && FitsSigned(tgd, 8) && FitsUnsigned(toc, 16)
      && FitsSigned(af2, 8) && FitsSigned(af1, 16) && FitsSigned(af0, 22)
    case OrbitA(iode, crs, deltaN, m0, cuc, ecc, cus, sqrtA, toe) =>
      && FitsUnsigned(iode, 8) && FitsSigned(crs, 16) && FitsSigned(deltaN, 16) && FitsSigned(m0, 32)
      && FitsSigned(cuc, 16)
      && FitsUnsigned(ecc, 32) && FitsSigned(cus, 16) && FitsUnsigned(sqrtA, 32) && FitsUnsigned(toe, 16)
    case OrbitB(cic, omega0, cis, i0, crc, omega, omegaDot, iode, idot) =>
      && FitsSigned(cic, 16) && FitsSigned(omega0, 32) && FitsSigned(cis, 16) && FitsSigned(i0, 32)
      && FitsSigned(crc, 16)
      && FitsSigned(omega, 32) && FitsSigned(omegaDot, 24) && FitsUnsigned(iode, 8) && FitsSigned(idot, 14)
    case Almanac(id) => 4 <= id <= 5
  }

  function IdOf(b: Body): nat {
    match b
    case Clock(_, _, _, _, _, _, _) => 1
    case OrbitA(_, _, _, _, _, _, _, _, _) => 2
    case OrbitB(_, _, _, _, _, _, _, _, _) => 3
    case Almanac(id) => id
  }

  predicate AreTen(words: seq<BitString>) { |words| == 10 && AreWords(words) }

  /** The handover word: time of week count and subframe number, spare bits kept. */
  function Handover(towCount: nat, id: nat, spare: BitString): (d: BitString)
    requires |spare| == 24
    ensures |d| == 24
  {
    Digits(towCount, 17) + spare[17..19] + Digits(id, 3) + spare[22..]
  }

  function PackClock(b: Body, spare: seq<BitString>): (words: seq<BitString>)
    requires b.Clock? && BodyFits(b) && AreTen(spare)
    ensures |words| == 8 && AreWords(words)
  {
    [Digits(b.weekNumber, 10) + spare[2][10..22] + Digits(b.iodc / 256, 2), spare[3], spare[4], spare[5],
     spare[6][..16] + SignedDigits(b.tgd, 8), Digits(b.iodc % 256, 8) + Digits(b.toc, 16),
     SignedDigits(b.af2, 8) + SignedDigits(b.af1, 16), SignedDigits(b.af0, 22) + spare[9][22..]]
  }

  function PackOrbitA(b: Body, spare: seq<BitString>): (words: seq<BitString>)
    requires b.OrbitA? && BodyFits(b) && AreTen(spare)
    ensures |words| == 8 && AreWords(words)
  {
    var m, e, a := SignedDigits(b.m0, 32), Digits(b.ecc, 32), Digits(b.sqrtA, 32);
    [Digits(b.iode, 8) + SignedDigits(b.crs, 16), SignedDigits(b.deltaN, 16) + m[..8], m[8..],
     SignedDigits(b.cuc, 16) + e[..8], e[8..], SignedDigits(b.cus, 16) + a[..8], a[8..],
     Digits(b.toe, 16) + spare[9][16..]]
  }

  function PackOrbitB(b: Body, spare: seq<BitString>): (words: seq<BitString>)
    requires b.OrbitB? && BodyFits(b) && AreTen(spare)
    ensures |words| == 8 && AreWords(words)
  {
    var o, i, w := SignedDigits(b.omega0, 32), SignedDigits(b.i0, 32), SignedDigits(b.omega, 32);
    [SignedDigits(b.cic, 16) + o[..8], o[8..], SignedDigits(b.cis, 16) + i[..8], i[8..],
     SignedDigits(b.crc, 16) + w[..8], w[8..], SignedDigits(b.omegaDot, 24),
     Digits(b.iode, 8) + SignedDigits(b.idot, 14) + spare[9][22..]]
  }

  /** Words 3 to 10, with the bits no field uses taken from spare. */
  function PackBody(b: Body, spare: seq<BitString>): (words: seq<BitString>)
    requires BodyFits(b) && AreTen(spare)
    ensures |words| == 8 && AreWords(words)
  {
    if b.Clock? then PackClock(b, spare)
    else if b.OrbitA? then PackOrbitA(b, spare)
    else if b.OrbitB? then PackOrbitB(b, spare)
    else spare[2..]
  }

  /** The ten 24-bit data words of a subframe. */
  function Pack(sub: Subframe, spare: seq<BitString>): (words: seq<BitString>)
    requires BodyFits(sub.body) && FitsUnsigned(sub.towCount, 17) && AreTen(spare)
    ensures AreTen(words)
  {
    [PREAMBLE + spare[0][8..], Handover(sub.towCount, IdOf(sub.body), spare[1])] + PackBody(sub.body, spare)
  }

  ghost predicate Carry(words: seq<nat>, data: seq<BitString>) {
    |words| == |data| && forall i | 0 <= i < |words| :: CarriesData(words[i], data[i])
  }

  // reading fields back

  lemma ReadUnsigned(word: nat, d: BitString, startBit: nat, n: nat)
    requires |d| == 24 && CarriesData(word, d) && 1 <= startBit && startBit - 1 + n <= 24
    ensures ExtractUnsignedBits(word, startBit, n) == WordOf(d[startBit - 1..startBit - 1 + n])
  {
    var p: BitString :| |p| == 6 && word == WordOf(d + p);
    ExtractReadsSlice(d + p, startBit, n);
    assert (d + p)[startBit - 1..startBit - 1 + n] == d[startBit - 1..startBit - 1 + n];
  }

  lemma ReadSigned(word: nat, d: BitString, startBit: nat, n: nat)
    requires |d| == 24 && CarriesData(word, d) && 1 <= startBit && 1 <= n && startBit - 1 + n <= 24
    ensures ExtractSignedBits(word, startBit, n) == SignedOf(WordOf(d[startBit - 1..startBit - 1 + n]), n)
  {
    var p: BitString :| |p| == 6 && word == WordOf(d + p);
    ExtractReadsSigned(d + p, startBit, n);
    assert (d + p)[startBit - 1..startBit - 1 + n] == d[startBit - 1..startBit - 1 + n];
  }

  /** A field between the bits before it and after it. */
  lemma UnsignedField(word: nat, d: BitString, before: BitString, v: nat, n: nat, after: BitString)
    requires |d| == 24 && CarriesData(word, d) && v < Pow2(n) && d == before + Digits(v, n) + after
    ensures ExtractUnsignedBits(word, |before| + 1, n) == v
  {
    ReadUnsigned(word, d, |before| + 1, n);
    assert d[|before|..|before| + n] == Digits(v, n);
    WordOfDigits(v, n);
  }

  lemma SignedField(word: nat, d: BitString, before: BitString, v: int, n: nat, after: BitString)
    requires |d| == 24 && CarriesData(word, d) && n >= 1 && FitsSigned(v, n) && d == before + SignedDigits(v, n) + after
    ensures ExtractSignedBits(word, |before| + 1, n) == v
  {
    ReadSigned(word, d, |before| + 1, n);
    assert d[|before|..|before| + n] == SignedDigits(v, n);
    SignedRoundTrip(v, n);
  }

  lemma Powers()
    ensures Pow2(2) == 4 && Pow2(8) == 0x100 && Pow2(10) == 1024 && Pow2(24) == 0x100_0000 && Pow2(31) == 0x8000_0000
            && Pow2(32) == WRAP32
  {
    assert Pow2(5) == 32;
    assert Pow2(16) == 0x1_0000;
  }

  lemma JoinedPositive(u: nat, lo: nat)
    requires u < 0x100 && lo < 0x100_0000
    ensures Or((u * 0x100_0000) % WRAP32, lo) == u * 0x100_0000 + lo
  {
    Powers();
    assert (u * 0x100_0000) % WRAP32 == u * 0x100_0000;
    OrOfShifted(u, 24, lo);
  }

  lemma Joined(u: nat, lo: nat)
    requires u < 0x100 && lo < 0x100_0000
    ensures Join32(u, lo) == u * 0x100_0000 + lo
    ensures Join32(u - 0x100, lo) == u * 0x100_0000 + lo
  {
    JoinedPositive(u, lo);
    var v := (u - 0x100) % WRAP32;
    assert v == u + (WRAP32 - 0x100);
    assert v * 0x100_0000 == 0xFF_FFFF * WRAP32 + u * 0x100_0000;
    assert (v * 0x100_0000) % WRAP32 == u * 0x100_0000;
  }

  /** A 32-bit field split 8 and 24 bits over two words. */
  lemma SplitField(a: nat, da: BitString, b: nat, db: BitString, before: BitString, bits: BitString)
    requires |da| == |db| == 24 && CarriesData(a, da) && CarriesData(b, db) && |before| == 16 && |bits| == 32
    requires da == before + bits[..8] && db == bits[8..]
    ensures UnsignedPair(a, 17, b) == WordOf(bits)
    ensures SignedPair(a, 17, b) == AsInt32(WordOf(bits))
  {
    ReadUnsigned(a, da, 17, 8);
    ReadSigned(a, da, 17, 8);
    ReadUnsigned(b, db, 1, 24);
    assert da[16..24] == bits[..8] && db[0..24] == bits[8..];
    JoinedBits(bits[..8], bits[8..]);
    assert bits == bits[..8] + bits[8..];
  }

  lemma JoinedBits(hi: BitString, lo: BitString)
    requires |hi| == 8 && |lo| == 24
    ensures Join32(WordOf(hi), WordOf(lo)) == WordOf(hi + lo)
    ensures Join32(SignedOf(WordOf(hi), 8), WordOf(lo)) == WordOf(hi + lo)
  {
    WordOfConcat(hi, lo);
    WordBound(hi);
    WordBound(lo);
    Powers();
    Joined(WordOf(hi), WordOf(lo));
  }

  lemma AsInt32Signs(v: int)
    requires FitsSigned(v, 32)
    ensures AsInt32(WordOf(SignedDigits(v, 32))) == v
  {
    SignedRoundTrip(v, 32);
    Powers();
  }

  lemma Padded(a: BitString, b: BitString)
    ensures [] + a + b == a + b == a + b + []
  {
  }

  /** Two fields that fill a word. */
  lemma UnsignedThenSigned(word: nat, d: BitString, u: nat, n: nat, v: int)
    requires |d| == 24 && 1 <= n < 24 && CarriesData(word, d) && u < Pow2(n) && FitsSigned(v, 24 - n)
             && d == Digits(u, n) + SignedDigits(v, 24 - n)
    ensures ExtractUnsignedBits(word, 1, n) == u && ExtractSignedBits(word, n + 1, 24 - n) == v
  {
    Padded(Digits(u, n), SignedDigits(v, 24 - n));
    UnsignedField(word, d, [], u, n, SignedDigits(v, 24 - n));
    SignedField(word, d, Digits(u, n), v, 24 - n, []);
  }

  lemma UnsignedThenUnsigned(word: nat, d: BitString, u: nat, n: nat, v: nat)
    requires |d| == 24 && 1 <= n < 24 && CarriesData(word, d) && u < Pow2(n) && v < Pow2(24 - n)
             && d == Digits(u, n) + Digits(v, 24 - n)
    ensures ExtractUnsignedBits(word, 1, n) == u && ExtractUnsignedBits(word, n + 1, 24 - n) == v
  {
    Padded(Digits(u, n), Digits(v, 24 - n));
    UnsignedField(word, d, [], u, n, Digits(v, 24 - n));
    UnsignedField(word, d, Digits(u, n), v, 24 - n, []);
  }

  lemma SignedThenSigned(word: nat, d: BitString, u: int, n: nat, v: int)
    requires |d| == 24 && 1 <= n < 24 && CarriesData(word, d) && FitsSigned(u, n) && FitsSigned(v, 24 - n)
             && d == SignedDigits(u, n) + SignedDigits(v, 24 - n)
    ensures ExtractSignedBits(word, 1, n) == u && ExtractSignedBits(word, n + 1, 24 - n) == v
  {
    Padded(SignedDigits(u, n), SignedDigits(v, 24 - n));
    SignedField(word, d, [], u, n, SignedDigits(v, 24 - n));
    SignedField(word, d, SignedDigits(u, n), v, 24 - n, []);
  }

  lemma WeekReads(word: nat, d: BitString, week: nat, middle: BitString, hi: nat)
    requires |d| == 24 && |middle| == 12 && CarriesData(word, d) && FitsUnsigned(week, 10) && FitsUnsigned(hi, 2)
    requires d == Digits(week, 10) + middle + Digits(hi, 2)
    ensures ExtractUnsignedBits(word, 1, 10) == week && ExtractUnsignedBits(word, 23, 2) == hi
  {
    UnsignedField(word, d, [], week, 10, middle + Digits(hi, 2));
    UnsignedField(word, d, Digits(week, 10) + middle, hi, 2, []);
  }

  lemma IodcHalves(iodc: nat)
    requires FitsUnsigned(iodc, 10)
    ensures FitsUnsigned(iodc / 256, 2) && FitsUnsigned(iodc % 256, 8) && Or((iodc / 256) * 0x100, iodc % 256) == iodc
  {
    Powers();
    OrOfShifted(iodc / 256, 8, iodc % 256);
  }

  lemma ClockReads(words: seq<nat>, b: Body, spare: seq<BitString>, d: seq<BitString>)
    requires b.Clock? && BodyFits(b) && AreTen(spare) && d == PackClock(b, spare) && |words| == 10
             && Carry(words[2..], d)
    ensures DecodeBody(words, 1) == b
  {
    CarriedAt(words, d);
    var hi, lo := b.iodc / 256, b.iodc % 256;
    IodcHalves(b.iodc);
    WeekReads(words[2], d[0], b.weekNumber, spare[2][10..22], hi);
    UnsignedThenUnsigned(words[7], d[5], lo, 8, b.toc);
    ClockTail(words, b, spare, d);
  }

  /** Its group delay and its three coefficients. */
  lemma ClockTail(words: seq<nat>, b: Body, spare: seq<BitString>, d: seq<BitString>)
    requires b.Clock? && BodyFits(b) && AreTen(spare) && d == PackClock(b, spare) && |words| == 10
             && Carry(words[2..], d)
    ensures ExtractSignedBits(words[6], 17, 8) == b.tgd && ExtractSignedBits(words[8], 1, 8) == b.af2
    ensures ExtractSignedBits(words[8], 9, 16) == b.af1 && ExtractSignedBits(words[9], 1, 22) == b.af0
  {
    CarriedAt(words, d);
    SignedField(words[6], d[4], spare[6][..16], b.tgd, 8, []);
    SignedThenSigned(words[8], d[6], b.af2, 8, b.af1);
    SignedField(words[9], d[7], [], b.af0, 22, spare[9][22..]);
  }

  lemma OrbitAReads(words: seq<nat>, b: Body, spare: seq<BitString>, d: seq<BitString>)
    requires b.OrbitA? && BodyFits(b) && AreTen(spare) && d == PackOrbitA(b, spare) && |words| == 10
             && Carry(words[2..], d)
    ensures DecodeBody(words, 2) == b
  {
    CarriedAt(words, d);
    UnsignedThenSigned(words[2], d[0], b.iode, 8, b.crs);
    SignedAndSplit(words[3], d[1], words[4], d[2], b.deltaN, b.m0);
    OrbitATail(words, b, spare, d);
  }

  /** The second half of that subframe. */
  lemma OrbitATail(words: seq<nat>, b: Body, spare: seq<BitString>, d: seq<BitString>)
    requires b.OrbitA? && BodyFits(b) && AreTen(spare) && d == PackOrbitA(b, spare) && |words| == 10
             && Carry(words[2..], d)
    ensures ExtractSignedBits(words[5], 1, 16) == b.cuc && UnsignedPair(words[5], 17, words[6]) == b.ecc
    ensures ExtractSignedBits(words[7], 1, 16) == b.cus && UnsignedPair(words[7], 17, words[8]) == b.sqrtA
    ensures ExtractUnsignedBits(words[9], 1, 16) == b.toe
  {
    CarriedAt(words, d);
    SignedAndUnsignedSplit(words[5], d[3], words[6], d[4], b.cuc, b.ecc);
    SignedAndUnsignedSplit(words[7], d[5], words[8], d[6], b.cus, b.sqrtA);
    UnsignedField(words[9], d[7], [], b.toe, 16, spare[9][16..]);
  }

  /** Sixteen bits, then thirty-two split over the word boundary. */
  lemma SixteenAndSplit(a: nat, da: BitString, b: nat, db: BitString, u: BitString, v: BitString)
    requires |da| == |db| == 24 && CarriesData(a, da) && CarriesData(b, db) && |u| == 16 && |v| == 32
    requires da == u + v[..8] && db == v[8..]
    ensures ExtractSignedBits(a, 1, 16) == SignedOf(WordOf(u), 16)
    ensures UnsignedPair(a, 17, b) == WordOf(v) && SignedPair(a, 17, b) == AsInt32(WordOf(v))
  {
    ReadSigned(a, da, 1, 16);
    assert da[0..16] == u;
    SplitField(a, da, b, db, u, v);
  }

  lemma SignedAndSplit(a: nat, da: BitString, b: nat, db: BitString, u: int, v: int)
    requires |da| == |db| == 24 && CarriesData(a, da) && CarriesData(b, db) && FitsSigned(u, 16) && FitsSigned(v, 32)
    requires da == SignedDigits(u, 16) + SignedDigits(v, 32)[..8] && db == SignedDigits(v, 32)[8..]
    ensures ExtractSignedBits(a, 1, 16) == u && SignedPair(a, 17, b) == v
  {
    SixteenAndSplit(a, da, b, db, SignedDigits(u, 16), SignedDigits(v, 32));
    SignedRoundTrip(u, 16);
    AsInt32Signs(v);
  }

  lemma SignedAndUnsignedSplit(a: nat, da: BitString, b: nat, db: BitString, u: int, v: nat)
    requires |da| == |db| == 24 && CarriesData(a, da) && CarriesData(b, db) && FitsSigned(u, 16) && FitsUnsigned(v, 32)
    requires da == SignedDigits(u, 16) + Digits(v, 32)[..8] && db == Digits(v, 32)[8..]
    ensures ExtractSignedBits(a, 1, 16) == u && UnsignedPair(a, 17, b) == v
  {
    SixteenAndSplit(a, da, b, db, SignedDigits(u, 16), Digits(v, 32));
    SignedRoundTrip(u, 16);
    WordOfDigits(v, 32);
  }

  lemma OrbitBReads(words: seq<nat>, b: Body, spare: seq<BitString>, d: seq<BitString>)
    requires b.OrbitB? && BodyFits(b) && AreTen(spare) && d == PackOrbitB(b, spare) && |words| == 10
             && Carry(words[2..], d)
    ensures DecodeBody(words, 3) == b
  {
    CarriedAt(words, d);
    SignedAndSplit(words[2], d[0], words[3], d[1], b.cic, b.omega0);
    SignedAndSplit(words[4], d[2], words[5], d[3], b.cis, b.i0);
    OrbitBTail(words, b, spare, d);
  }

  /** The second half of that subframe. */
  lemma OrbitBTail(words: seq<nat>, b: Body, spare: seq<BitString>, d: seq<BitString>)
    requires b.OrbitB? && BodyFits(b) && AreTen(spare) && d == PackOrbitB(b, spare) && |words| == 10
             && Carry(words[2..], d)
    ensures ExtractSignedBits(words[6], 1, 16) == b.crc && SignedPair(words[6], 17, words[7]) == b.omega
    ensures ExtractSignedBits(words[8], 1, 24) == b.omegaDot
    ensures ExtractUnsignedBits(words[9], 1, 8) == b.iode && ExtractSignedBits(words[9], 9, 14) == b.idot
  {
    CarriedAt(words, d);
    SignedAndSplit(words[6], d[4], words[7], d[5], b.crc, b.omega);
    SignedField(words[8], d[6], [], b.omegaDot, 24, []);
    IodeAndIdot(words[9], d[7], b.iode, b.idot, spare[9][22..]);
  }

  lemma IodeAndIdot(word: nat, d: BitString, iode: nat, idot: int, last: BitString)
    requires |d| == 24 && |last| == 2 && CarriesData(word, d) && FitsUnsigned(iode, 8) && FitsSigned(idot, 14)
    requires d == Digits(iode, 8) + SignedDigits(idot, 14) + last
    ensures ExtractUnsignedBits(word, 1, 8) == iode && ExtractSignedBits(word, 9, 14) == idot
  {
    UnsignedField(word, d, [], iode, 8, SignedDigits(idot, 14) + last);
    SignedField(word, d, Digits(iode, 8), idot, 14, last);
  }

  lemma CarriedAt(words: seq<nat>, d: seq<BitString>)
    requires |words| == 10 && |d| == 8 && Carry(words[2..], d)
    ensures CarriesData(words[2], d[0]) && CarriesData(words[3], d[1]) && CarriesData(words[4], d[2])
            && CarriesData(words[5], d[3])
    ensures CarriesData(words[6], d[4]) && CarriesData(words[7], d[5]) && CarriesData(words[8], d[6])
            && CarriesData(words[9], d[7])
  {
    var w := words[2..];
    assert w[0] == words[2] && w[1] == words[3] && w[2] == words[4] && w[3] == words[5];
    assert w[4] == words[6] && w[5] == words[7] && w[6] == words[8] && w[7] == words[9];
    assert CarriesData(w[0], d[0]) && CarriesData(w[1], d[1]) && CarriesData(w[2], d[2]) && CarriesData(w[3], d[3]);
    assert CarriesData(w[4], d[4]) && CarriesData(w[5], d[5]) && CarriesData(w[6], d[6]) && CarriesData(w[7], d[7]);
  }

  /** Whatever words carry a packed subframe decode to its raw integers. */
  lemma PackedReads(words: seq<nat>, sub: Subframe, spare: seq<BitString>, searchMask: nat)
    requires BodyFits(sub.body) && FitsUnsigned(sub.towCount, 17) && AreTen(spare)
    requires Carry(words, Pack(sub, spare))
    ensures DecodeSubframe(words, searchMask) == if BitAt(searchMask, IdOf(sub.body) - 1) then Some(sub) else None
  {
    var data, b, id := Pack(sub, spare), sub.body, IdOf(sub.body);
    assert data[1] == Handover(sub.towCount, id, spare[1]) && CarriesData(words[1], data[1]);
    HandoverReads(words[1], sub.towCount, id, spare[1]);
    var d := PackBody(b, spare);
    assert data[2..] == d;
    forall i | 0 <= i < 8 ensures CarriesData(words[2..][i], d[i]) {
      assert CarriesData(words[i + 2], data[i + 2]);
    }
    BodyReads(words, b, spare, d);
  }

  lemma HandoverReads(word: nat, towCount: nat, id: nat, spare: BitString)
    requires |spare| == 24 && FitsUnsigned(towCount, 17) && id < 8 && CarriesData(word, Handover(towCount, id, spare))
    ensures ExtractUnsignedBits(word, 1, 17) == towCount && ExtractUnsignedBits(word, 20, 3) == id
  {
    var how := Handover(towCount, id, spare);
    assert Pow2(3) == 8;
    UnsignedField(word, how, [], towCount, 17, spare[17..19] + Digits(id, 3) + spare[22..]);
    UnsignedField(word, how, Digits(towCount, 17) + spare[17..19], id, 3, spare[22..]);
  }

  lemma BodyReads(words: seq<nat>, b: Body, spare: seq<BitString>, d: seq<BitString>)
    requires BodyFits(b) && AreTen(spare) && d == PackBody(b, spare) && |words| == 10 && Carry(words[2..], d)
    ensures DecodeBody(words, IdOf(b)) == b
  {
    if b.Clock? {
      ClockReads(words, b, spare, d);
    } else if b.OrbitA? {
      OrbitAReads(words, b, spare, d);
    } else if b.OrbitB? {
      OrbitBReads(words, b, spare, d);
    }
  }

  // ----- sending bits as samples

  /** Twenty samples per bit whose sum has the bit's sign, strictly, all negated when negated. */
  ghost predicate Signals(x: seq<real>, base: nat, sent: BitString, negated: bool) {
    && base + PERIODS * |sent| <= |x|
    && forall i | 0 <= i < |sent| :: SignalAt(x, base + PERIODS * i, sent[i] != negated)
  }

  ghost predicate SignalAt(x: seq<real>, base: nat, positive: bool) {
    base + PERIODS <= |x| && (if positive then SumFrom(x, base, PERIODS) > 0.0 else SumFrom(x, base, PERIODS) < 0.0)
  }

  lemma SignalsRead(x: seq<real>, base: nat, sent: BitString, negated: bool)
    requires Signals(x, base, sent, negated)
    ensures BitsFrom(x, base, |sent|) == Upright(sent, negated)
  {
    forall i | 0 <= i < |sent| ensures BitsFrom(x, base, |sent|)[i] == (sent[i] != negated) {
      assert SignalAt(x, base + PERIODS * i, sent[i] != negated);
    }
  }

  lemma SignalsSplit(x: seq<real>, base: nat, a: BitString, b: BitString, negated: bool)
    requires Signals(x, base, a + b, negated)
    ensures Signals(x, base, a, negated) && Signals(x, base + PERIODS * |a|, b, negated)
  {
    forall i | 0 <= i < |a| ensures SignalAt(x, base + PERIODS * i, a[i] != negated) {
      assert SignalAt(x, base + PERIODS * i, (a + b)[i] != negated);
    }
    forall i | 0 <= i < |b| ensures SignalAt(x, base + PERIODS * |a| + PERIODS * i, b[i] != negated) {
      assert SignalAt(x, base + PERIODS * (|a| + i), (a + b)[|a| + i] != negated);
    }
  }

  /** A word sent after D30 = 1 has its data complemented, and with it the preamble. */
  lemma SentPolarity(data: seq<BitString>, d29: bool, d30: bool, negated: bool)
    requires AreTen(data) && data[0][..8] == PREAMBLE
    ensures Polarity(Upright(Encode(data, d29, d30), negated)) == Some(negated != d30)
  {
    var sent := Encode(data, d29, d30);
    var bits := Upright(sent, negated);
    assert sent[..8] == Upright(data[0], d30)[..8] == Upright(PREAMBLE, d30);
    PreambleBits(bits[..8]);
    assert bits[..8] == Upright(PREAMBLE, negated != d30);
    assert PREAMBLE[0] && Not(PREAMBLE) != PREAMBLE;
  }

  /** Ten words sent after any two bits, as received at either polarity, form a chain that carries their data. */
  lemma SentAtPolarity(data: seq<BitString>, d29: bool, d30: bool, inverted: bool)
    requires AreTen(data)
    ensures StoresData(Upright([d29, d30] + Encode(data, d29, d30), inverted), data)
    ensures Chain(Upright([d29, d30] + Encode(data, d29, d30), inverted))
  {
    var s := [d29, d30] + Encode(data, d29, d30);
    SentIsRead(data, d29, d30);
    ChainOfComplement(s);
    StoredOfComplement(s, data);
  }

  lemma UprightJoins(a: BitString, b: BitString, inverted: bool)
    ensures Upright(a, inverted) + Upright(b, inverted) == Upright(a + b, inverted)
  {
    if inverted {
      assert Not(a) + Not(b) == Not(a + b);
    }
  }

  lemma UprightTwice(a: BitString, first: bool, second: bool)
    ensures Upright(Upright(a, first), second) == Upright(a, first != second)
  {
    if first && second {
      assert Not(Not(a)) == a;
    }
  }

  /** Ten words are read back at either polarity when the two bits before them are read, or are equal. */
  lemma SentWordsRead(data: seq<BitString>, d29: bool, d30: bool, prior: BitString, negated: bool)
    requires AreTen(data) && data[0][..8] == PREAMBLE
    requires prior == [] || prior == Upright([d29, d30], negated)
    ensures var words := ReadWords(prior, Upright(Encode(data, d29, d30), negated));
            && (words.Some? <==> prior != [] || d29 == d30)
            && (words.Some? ==> Carry(words.value, data))
  {
    var sent := Encode(data, d29, d30);
    var bits, inverted := Upright(sent, negated), negated != d30;
    SentPolarity(data, d29, d30, negated);
    SentAtPolarity(data, d29, d30, d30);
    UprightTwice([d29, d30], negated, inverted);
    UprightTwice(sent, negated, inverted);
    UprightJoins([d29, d30], sent, d30);
    UprightJoins([d29, d30], sent, negated);
    if prior != [] || d29 == d30 {
      assert prior == [] ==> Upright([d29, d30], d30) == [false, false];
      assert Stream(prior, bits, inverted) == Upright([d29, d30] + sent, d30);
    } else {
      SentAtPolarity(data, d29, d30, negated);
      assert Upright([d29, d30], negated) == [d29 != negated, d30 != negated];
      AssumedFeedbackIff(d29 != negated, d30 != negated, bits, inverted);
    }
  }

  lemma ReceivedBits(x: seq<real>, start: nat, position: nat, sent: BitString, feedback: BitString, negated: bool)
    requires |sent| == SUBFRAME_BITS && |feedback| == 2 && start >= PERIODS * position
    requires Signals(x, start, sent, negated)
    requires position >= 2 ==> Signals(x, start - 2 * PERIODS, feedback, negated)
    ensures BitsFrom(x, start, SUBFRAME_BITS) == Upright(sent, negated)
    ensures PriorBits(x, start, position) == if position >= 2 then Upright(feedback, negated) else []
  {
    SignalsRead(x, start, sent, negated);
    if position >= 2 {
      SignalsRead(x, start - 2 * PERIODS, feedback, negated);
    }
  }

  /** The round trip: packing, parity, spreading and either polarity, then the decoder. */
  lemma SubframeRoundTrip(x: seq<real>, codePhases: seq<real>, phase: nat, position: nat, searchMask: nat,
                          sub: Subframe, spare: seq<BitString>, d29: bool, d30: bool, negated: bool)
    requires BodyFits(sub.body) && FitsUnsigned(sub.towCount, 17) && AreTen(spare)
    requires Signals(x, StartSample(phase, position), Encode(Pack(sub, spare), d29, d30), negated)
    requires position >= 2 ==> Signals(x, StartSample(phase, position) - 2 * PERIODS, [d29, d30], negated)
    ensures var result := Try(x, codePhases, phase, position, FieldReader(searchMask));
            if (position >= 2 || d29 == d30) && BitAt(searchMask, IdOf(sub.body) - 1)
            then result.Decoded? && result.subframe == sub && Carry(result.words, Pack(sub, spare))
            else result == Rejected
  {
    var start := StartSample(phase, position);
    ReceivedBits(x, start, position, Encode(Pack(sub, spare), d29, d30), [d29, d30], negated);
    MessageRoundTrip(PriorBits(x, start, position), BitsFrom(x, start, SUBFRAME_BITS), searchMask, sub, spare, d29,
                     d30, negated);
  }

  /** The same for the bits themselves. */
  lemma MessageRoundTrip(prior: BitString, bits: BitString, searchMask: nat, sub: Subframe, spare: seq<BitString>,
                         d29: bool, d30: bool, negated: bool)
    requires BodyFits(sub.body) && FitsUnsigned(sub.towCount, 17) && AreTen(spare)
    requires bits == Upright(Encode(Pack(sub, spare), d29, d30), negated)
    requires prior == [] || prior == Upright([d29, d30], negated)
    ensures var m := ReadMessage(prior, bits, searchMask);
            if (prior != [] || d29 == d30) && BitAt(searchMask, IdOf(sub.body) - 1)
            then m.Some? && m.value.subframe == sub && Carry(m.value.words, Pack(sub, spare))
            else m == None
  {
    var data := Pack(sub, spare);
    assert data[0][..8] == PREAMBLE;
    SentWordsRead(data, d29, d30, prior, negated);
    if prior != [] || d29 == d30 {
      PackedReads(ReadWords(prior, bits).value, sub, spare, searchMask);
    }
  }

  // ----- the decoder's loops

  lemma NextBit(bits: BitString, n: nat)
    requires n < |bits|
    ensures WordOf(bits[..n + 1]) == 2 * WordOf(bits[..n]) + Bit(bits[n])
  {
    assert bits[..n + 1][..n] == bits[..n];
  }

  lemma WordSlice(s: BitString, u: BitString, w: nat)
    requires |s| == |u| + 2 && s[2..] == u && 30 * (w + 1) <= |u|
    ensures s[30 * w..][2..32] == u[30 * w..30 * w + 30]
    ensures s[30 * w..][30..] == s[30 * (w + 1)..]
    ensures s[30 * (w + 1)] == s[30 * w..][30] && s[30 * (w + 1) + 1] == s[30 * w..][31]
  {
  }

  /** One word of a chain, given the number its bits spell. */
  lemma WordStep(s: BitString, raw: nat)
    requires |s| % 30 == 2 && |s| > 2 && raw == WordOf(s[2..32])
    ensures Chain(s) == (CheckParity(DataWord(raw, s[1]), s[0], s[1]) && Chain(s[30..]))
    ensures Stored(s) == [DataWord(raw, s[1])] + Stored(s[30..])
    ensures s[30] == BitAt(raw, 1) && s[31] == BitAt(raw, 0)
  {
    assert s[..32][2..] == s[2..32];
    LastBits(s[2..32]);
  }

  /** The words so far are read, and rest is still to be checked. */
  ghost predicate Reading(s: BitString, rest: BitString, words: seq<nat>)
    requires |s| % 30 == 2 && |rest| % 30 == 2
  {
    Chain(s) == Chain(rest) && Stored(s) == words + Stored(rest)
  }

  lemma ReadsOn(s: BitString, rest: BitString, words: seq<nat>, raw: nat)
    requires |s| % 30 == 2 && |rest| % 30 == 2 && Reading(s, rest, words) && |rest| > 2 && raw == WordOf(rest[2..32])
    ensures rest[30] == BitAt(raw, 1) && rest[31] == BitAt(raw, 0)
    ensures var word := DataWord(raw, rest[1]);
            if CheckParity(word, rest[0], rest[1]) then Reading(s, rest[30..], words + [word]) else !Chain(s)
  {
    WordStep(rest, raw);
  }

  lemma StartsReading(s: BitString)
    requires |s| % 30 == 2
    ensures Reading(s, s, [])
  {
  }

  lemma AllRead(s: BitString, rest: BitString, words: seq<nat>)
    requires |s| % 30 == 2 && |rest| == 2 && Reading(s, rest, words)
    ensures Chain(s) && Stored(s) == words
  {
  }

  class NavigationDecoder {
    const searchMask: nat
    var wordsScratch: seq<nat>

    constructor (searchMask: nat)
      ensures this.searchMask == searchMask
    {
      this.searchMask := searchMask;
      wordsScratch := [];
    }

    method DemodulateBit(x: seq<real>, base: nat) returns (bit: bool)
      requires base + PERIODS <= |x|
      ensures bit == BitFrom(x, base)
    {
      var sum := 0.0;
      for k := 0 to PERIODS
        invariant sum == SumFrom(x, base, k)
      {
        sum := sum + x[base + k];
      }
      bit := sum > 0.0;
    }

    /** Fills bits from index first on. */
    method DemodulateInto(x: seq<real>, start: nat, bits: array<bool>, first: nat, last: nat)
      requires first <= last <= bits.Length && start + PERIODS * last <= |x|
      modifies bits
      ensures forall i | first <= i < last :: bits[i] == BitFrom(x, start + PERIODS * i)
      ensures forall i | 0 <= i < first :: bits[i] == old(bits[i])
    {
      for i := first to last
        invariant forall k | first <= k < i :: bits[k] == BitFrom(x, start + PERIODS * k)
        invariant forall k | 0 <= k < first :: bits[k] == old(bits[k])
      {
        bits[i] := DemodulateBit(x, start + PERIODS * i);
      }
    }

    method ReadByte(bits: array<bool>) returns (byteVal: nat)
      requires bits.Length >= 8
      ensures byteVal == WordOf(bits[..8])
    {
      byteVal := 0;
      for b := 0 to 8
        invariant byteVal == WordOf(bits[..b])
      {
        NextBit(bits[..], b);
        assert bits[..][..b + 1] == bits[..b + 1] && bits[..][..b] == bits[..b];
        byteVal := 2 * byteVal + Bit(bits[b]);
      }
    }

    /** The last two bits before the subframe, when there are that many. */
    method ReadFeedback(x: seq<real>, start: nat, position: nat, inverted: bool) returns (prevD29: bool, prevD30: bool)
      requires start <= |x| && start >= PERIODS * position
      ensures [prevD29, prevD30] == Stream(PriorBits(x, start, position), [], inverted)
    {
      prevD29, prevD30 := false, false;
      if position >= 2 {
        var first := DemodulateBit(x, start - 2 * PERIODS);
        var second := DemodulateBit(x, start - 1 * PERIODS);
        prevD29 := if inverted then !first else first;
        prevD30 := if inverted then !second else second;
        assert PriorBits(x, start, position) == [first, second];
      }
    }

    method ReadWord(bits: seq<bool>, inverted: bool, first: nat) returns (raw: nat)
      requires first + 30 <= |bits|
      ensures raw == WordOf(Upright(bits, inverted)[first..first + 30])
    {
      ghost var word := Upright(bits, inverted)[first..first + 30];
      raw := 0;
      for b := 0 to 30
        invariant raw == WordOf(word[..b])
      {
        NextBit(word, b);
        var v := bits[first + b];
        raw := 2 * raw + Bit(if inverted then !v else v);
      }
      assert word[..30] == word;
    }

    /** Reads ten words through the parity chain, stopping at the first that fails. */
    method ReadTenWords(bits: seq<bool>, inverted: bool, d29: bool, d30: bool) returns (ok: bool)
      requires |bits| == SUBFRAME_BITS
      modifies this
      ensures var s := [d29, d30] + Upright(bits, inverted);
              ok == Chain(s) && (ok ==> wordsScratch == Stored(s))
    {
      var prevD29, prevD30 := d29, d30;
      wordsScratch := [];
      ghost var u := Upright(bits, inverted);
      ghost var s := [d29, d30] + u;
      ghost var rest := s;
      StartsReading(s);
      for w := 0 to 10
        invariant rest == s[30 * w..] && rest[0] == prevD29 && rest[1] == prevD30
        invariant Reading(s, rest, wordsScratch)
      {
        var raw := ReadWord(bits, inverted, 30 * w);
        WordSlice(s, u, w);
        ReadsOn(s, rest, wordsScratch, raw);
        var dataWord := DataWord(raw, prevD30);
        if !CheckParity(dataWord, prevD29, prevD30) {
          return false;
        }
        wordsScratch := wordsScratch + [dataWord];
        prevD29, prevD30 := BitAt(raw, 1), BitAt(raw, 0);
        rest := s[30 * (w + 1)..];
      }
      AllRead(s, rest, wordsScratch);
      return true;
    }

    method MatchAt(x: seq<real>, bits: seq<bool>, start: nat, edge: real, i: nat) returns (term: real)
      requires |bits| == SUBFRAME_BITS && start + SUBFRAME_SAMPLES <= |x| && i < SUBFRAME_BITS
      ensures term == MatchTerm(x, bits, start, edge, i)
    {
      var base := start + PERIODS * i;
      var sum := 0.0;
      for k := 1 to PERIODS
        invariant sum == SumFrom(x, base + 1, k - 1)
      {
        sum := sum + x[base + k];
      }
      term := Sign(bits[i]) * sum;
      if i > 0 {
        term := term + BoundaryTerm(edge, bits[i - 1], bits[i], x[base]);
      }
    }

    /** Picks the first of the best-matching starts within two samples. */
    method RefineStart(x: seq<real>, bits: seq<bool>, start: nat, edge: real) returns (refined: nat)
      requires |bits| == SUBFRAME_BITS && start + SUBFRAME_SAMPLES <= |x|
      ensures refined == RefinedStart(x, bits, start, edge)
    {
      var bestOffset, bestMetric := 0, -1.0;
      for candidate: int := -2 to 3
        invariant var best := BestCandidate(x, bits, start, edge, candidate);
                  if best.None? then bestOffset == 0 && bestMetric == -1.0
                  else best == Some(bestOffset) && bestMetric == Metric(x, bits, start, edge, bestOffset)
      {
        if start + candidate < 0 {
          continue;
        }
        if start + candidate + SUBFRAME_SAMPLES > |x| {
          continue;
        }
        var metric := 0.0;
        for i := 0 to SUBFRAME_BITS
          invariant metric == Match(x, bits, start + candidate, edge, i)
        {
          var term := MatchAt(x, bits, start + candidate, edge, i);
          metric := metric + term;
        }
        metric := Abs(metric);
        if metric > bestMetric {
          bestOffset, bestMetric := candidate, metric;
        }
      }
      assert Eligible(|x|, start, 0);
      refined := start + bestOffset;
    }

    /** Reads the words of a subframe whose polarity is known. */
    method ReadPolarised(x: seq<real>, start: nat, position: nat, bits: seq<bool>, inverted: bool) returns (ok: bool)
      requires start >= PERIODS * position && start + SUBFRAME_SAMPLES <= |x|
      requires bits == BitsFrom(x, start, SUBFRAME_BITS) && Polarity(bits) == Some(inverted)
      modifies this
      ensures var words := ReadWords(PriorBits(x, start, position), bits);
              ok == words.Some? && (ok ==> wordsScratch == words.value)
    {
      var prevD29, prevD30 := ReadFeedback(x, start, position, inverted);
      StreamSplits(PriorBits(x, start, position), bits, inverted);
      ok := ReadTenWords(bits, inverted, prevD29, prevD30);
    }

    /** Demodulates the preamble, and the rest only when it matches. */
    method ReadSubframe(x: seq<real>, start: nat, position: nat, bits: array<bool>) returns (ok: bool)
      requires start >= PERIODS * position && start + SUBFRAME_SAMPLES <= |x| && bits.Length == SUBFRAME_BITS
      modifies this, bits
      ensures var words := ReadWords(PriorBits(x, start, position), BitsFrom(x, start, SUBFRAME_BITS));
              ok == words.Some? && (ok ==> wordsScratch == words.value && bits[..] == BitsFrom(x, start, SUBFRAME_BITS))
    {
      ghost var all := BitsFrom(x, start, SUBFRAME_BITS);
      DemodulateInto(x, start, bits, 0, 8);
      assert bits[..8] == all[..8];
      var byteVal := ReadByte(bits);
      var inverted := false;
      if byteVal == 0x8B {
        inverted := false;
      } else if byteVal == 0x74 {
        inverted := true;
      } else {
        return false;
      }
      DemodulateInto(x, start, bits, 8, SUBFRAME_BITS);
      assert bits[..] == all;
      ok := ReadPolarised(x, start, position, bits[..], inverted);
    }

    /** Checks one bit position for a subframe. */
    method TryDecodeAtBitPosition(x: seq<real>, codePhases: seq<real>, phase: nat, position: nat)
      returns (result: Attempt)
      modifies this
      ensures result == Try(x, codePhases, phase, position, FieldReader(searchMask))
    {
      if phase > |x| {
        return NotEnoughData;
      }
      var start := phase + position * PERIODS;
      if start + SUBFRAME_BITS * PERIODS > |x| {
        return NotEnoughData;
      }
      TryReads(x, codePhases, phase, position, searchMask, start);
      var bits := new bool[SUBFRAME_BITS];
      var ok := ReadSubframe(x, start, position, bits);
      if !ok {
        return Rejected;
      }
      var edge := EdgeFraction(codePhases, start);
      var refined := RefineStart(x, bits[..], start, edge);
      var sub := DecodeSubframe(wordsScratch, searchMask);
      if sub.None? {
        return Rejected;
      }
      return Decoded(wordsScratch, refined, sub.value);
    }
  }

  /** An attempt with data is what its bits say. */
  lemma TryReads(x: seq<real>, codePhases: seq<real>, phase: nat, position: nat, searchMask: nat, start: nat)
    requires start == StartSample(phase, position) && start + SUBFRAME_SAMPLES <= |x|
    ensures var bits := BitsFrom(x, start, SUBFRAME_BITS);
            var m := ReadMessage(PriorBits(x, start, position), bits, searchMask);
            var refined := RefinedStart(x, bits, start, EdgeFraction(codePhases, start));
            Try(x, codePhases, phase, position, FieldReader(searchMask))
            == if m.None? then Rejected else Decoded(m.value.words, refined, m.value.subframe)
  {
  }

  lemma StreamSplits(prior: BitString, bits: BitString, inverted: bool)
    requires prior == [] || |prior| == 2
    ensures Stream(prior, bits, inverted) == Stream(prior, [], inverted) + Upright(bits, inverted)
  {
  }

  lemma LastBits(bits: BitString)
    requires |bits| == 30
    ensures BitAt(WordOf(bits), 1) == bits[28] && BitAt(WordOf(bits), 0) == bits[29]
  {
    BitOfWord(bits, 1);
    BitOfWord(bits, 0);
  }
}
