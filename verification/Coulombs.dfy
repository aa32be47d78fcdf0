/** The coulomb counter: decoding the signed accumulator, and a running total rounded at every read.

Arithmetic is over the reals: float rounding is not modelled, the rounding to hundredths the code itself does is. */
module Coulombs {
  import opened Bits
  import opened Quantiser

  /** The signed 24-bit accumulator: sixteen bits in one word, eight at the top of the next. */
  function Decode24(msb: Word, lsb: Word): int {
    var unsigned := msb * 0x100 + lsb / 0x100;
    if unsigned >= 0x80_0000 then unsigned - 0x100_0000 else unsigned
  }

  /** Conversion of a 32-bit pattern to a signed integer. */
  function ToInt32(x: nat): int {
    if x >= 0x8000_0000 then x - 0x1_0000_0000 else x
  }

  /** The code's route to it: join, test the sign bit, set the top byte. */
  lemma DecodeBits(msb: Word, lsb: Word)
    ensures var acc := Or(Shl(msb, 8), Shr(lsb, 8));
            Decode24(msb, lsb) == ToInt32(if And(acc, 0x80_0000) != 0 then Or(acc, 0xFF00_0000) else acc)
  {
    hide And, Or, Shl, Shr, BitSet;
    Pow2Values();
    ShrIsDiv(lsb, 8);
    JoinIsSum(msb, Shr(lsb, 8), 8);
    var acc := Or(Shl(msb, 8), Shr(lsb, 8));
    assert Pow2(23) == 0x80_0000 by { assert Pow2(24) == 2 * Pow2(23); }
    BitTest(acc, 23);
    BitSetIs(acc, 23);
    OrCommutes(acc, 0xFF00_0000);
    OrIsSum(0xFF00_0000, acc, 24);
  }

  /** Decoding inverts two's complement for every accumulator value, with any sample count beside it. */
  lemma DecodeInverts(n: int, count: Byte)
    requires -0x80_0000 <= n < 0x80_0000
    ensures var unsigned := n % 0x100_0000;
            var msb: Word, lsb: Word := unsigned / 0x100, (unsigned % 0x100) * 0x100 + count;
            Decode24(msb, lsb) == n && lsb % 0x100 == count
  {
    var unsigned := n % 0x100_0000;
    var low := unsigned % 0x100;
    DivModUnique(low * 0x100 + count, 0x100, low, count);
    assert unsigned == (unsigned / 0x100) * 0x100 + low;
    if n < 0 {
      DivModUnique(n, 0x100_0000, -1, n + 0x100_0000);
    }
  }

  /** `roundf`: to the nearest integer, halves away from zero. */
  function RoundF(x: real): int {
    if x >= 0.0 then (x + 0.5).Floor else -((-x + 0.5).Floor)
  }

  function Accumulate(total: real, batch: real): real {
    RoundF((total + batch) * 100.0) as real / 100.0
  }

  function Total(batches: seq<real>): real {
    if batches == [] then 0.0 else Accumulate(Total(batches[..|batches| - 1]), batches[|batches| - 1])
  }

  function Sum(batches: seq<real>): real {
    if batches == [] then 0.0 else Sum(batches[..|batches| - 1]) + batches[|batches| - 1]
  }

  function AddSamples(total: nat, count: Byte): nat {
    (total + count) % TWO_32
  }

  function SampleTotal(counts: seq<Byte>): nat {
    if counts == [] then 0 else AddSamples(SampleTotal(counts[..|counts| - 1]), counts[|counts| - 1])
  }

  function SumSamples(counts: seq<Byte>): nat {
    if counts == [] then 0 else SumSamples(counts[..|counts| - 1]) + counts[|counts| - 1]
  }

  predicate Hundredths(x: real) {
    (x * 100.0).Floor as real == x * 100.0
  }

  lemma RoundWithinHalf(x: real)
    ensures Within(RoundF(x) as real, x, 0.5)
  {
  }

  lemma AccumulateDrift(total: real, batch: real)
    ensures Hundredths(Accumulate(total, batch))
    ensures Within(Accumulate(total, batch), total + batch, 0.005)
  {
    var k := RoundF((total + batch) * 100.0);
    RoundWithinHalf((total + batch) * 100.0);
    assert Accumulate(total, batch) == k as real / 100.0;
  }

  /** Accumulator drift. After n reads the total is a multiple of 0.01 within n times 0.005 of the exact sum. */
  lemma {:induction false} TotalDrift(batches: seq<real>)
    ensures Hundredths(Total(batches))
    ensures Within(Total(batches), Sum(batches), |batches| as real * 0.005)
    decreases |batches|
  {
    if batches != [] {
      var before, last := batches[..|batches| - 1], batches[|batches| - 1];
      TotalDrift(before);
      AccumulateDrift(Total(before), last);
      assert |batches| as real * 0.005 == |before| as real * 0.005 + 0.005;
    }
  }

  /** A batch disappears exactly when it is below half a hundredth, or is half a hundredth towards zero. */
  lemma BatchLostExactly(total: real, batch: real)
    requires Hundredths(total)
    ensures Accumulate(total, batch) == total
       <==> -0.005 < batch < 0.005 || (batch == 0.005 && total < 0.0) || (batch == -0.005 && total > 0.0)
  {
    var k := (total * 100.0).Floor;
    assert (total + batch) * 100.0 == k as real + batch * 100.0;
    RoundNear(k, batch * 100.0);
  }

  lemma RoundNear(k: int, d: real)
    ensures RoundF(k as real + d) == k <==> -0.5 < d < 0.5 || (d == 0.5 && k < 0) || (d == -0.5 && k > 0)
  {
  }

  /** However often it is repeated, a batch below half a hundredth never shows: the loss is the whole sum. */
  lemma {:induction false} RepeatedLoss(batch: real, n: nat)
    requires -0.005 < batch < 0.005
    ensures Total(seq(n, _ => batch)) == 0.0 && Sum(seq(n, _ => batch)) == n as real * batch
    decreases n
  {
    if n > 0 {
      var batches := seq(n, _ => batch);
      RepeatedLoss(batch, n - 1);
      assert batches[..n - 1] == seq(n - 1, _ => batch);
      BatchLostExactly(0.0, batch);
      assert n as real * batch == (n - 1) as real * batch + batch;
    }
  }

  /** The sample total is the exact sum of the counts modulo 2^32. */
  lemma {:induction false} SamplesWrap(counts: seq<Byte>)
    ensures SampleTotal(counts) == SumSamples(counts) % 0x1_0000_0000
    decreases |counts|
  {
    if counts != [] {
      SamplesWrap(counts[..|counts| - 1]);
    }
  }
}
