/** Per-sample magnitude and per-block classification of unsigned 8-bit IQ data.
    A buffer is a sequence of bytes I0 Q0 I1 Q1 ...; pair i occupies bytes 2i and 2i+1. */
module Classify {

  /** One unsigned 8-bit sample component. */
  type Byte = x: int | 0 <= x < 256

  /** The value taken as zero amplitude: INT8_MAX, not the mid-scale 128. */
  const Midpoint: int := 127

  /** Largest block size for which `block_size * block_threshold` and the magnitude
      accumulator stay inside 32 bits (block_threshold and every magnitude are at most 255). */
  const MaxBlockSize: nat := 0xFFFF_FFFF / 255

  function Abs(x: int): (r: nat)
    ensures r == x || r == -x
  {
    if x < 0 then -x else x
  }

  /** Fast magnitude approximation: the sum of both components' distances from the
      midpoint, truncated to 8 bits. The sum is at most 256, so only the corner
      (255, 255) wraps, and it wraps to 0. */
  function Magnitude(i: Byte, q: Byte): (m: Byte)
    ensures (i, q) != (255, 255) ==> m == Abs(i - Midpoint) + Abs(q - Midpoint)
    ensures (i, q) == (255, 255) ==> m == 0
  {
    var wide := Abs(i - Midpoint) + Abs(q - Midpoint);
    if wide < 256 then wide else wide - 256
  }

  /** Magnitude of pair `k` of a buffer. */
  function PairMagnitude(buf: seq<Byte>, k: nat): Byte
    requires 2 * k + 1 < |buf|
  {
    Magnitude(buf[2 * k], buf[2 * k + 1])
  }

  /** Number of the first `n` pairs whose magnitude is strictly above `threshold`. */
  function OverCount(buf: seq<Byte>, n: nat, threshold: Byte): (count: nat)
    requires 2 * n <= |buf|
    ensures count <= n
  {
    if n == 0 then 0
    else OverCount(buf, n - 1, threshold) + (if PairMagnitude(buf, n - 1) > threshold then 1 else 0)
  }

  /** Sum of the magnitudes of the first `n` pairs (the accumulator `acc`). */
  function MagnitudeSum(buf: seq<Byte>, n: nat): (sum: nat)
    requires 2 * n <= |buf|
    ensures sum <= 255 * n
  {
    if n == 0 then 0 else MagnitudeSum(buf, n - 1) + PairMagnitude(buf, n - 1)
  }

  /** The block threshold, computed once per run from the configured block size
      (never from the number of pairs actually read), with truncating division. */
  function BlockThreshold(blockSize: nat, percent: Byte): (t: nat)
    ensures 100 * t <= blockSize * percent < 100 * t + 100
    ensures percent <= 100 ==> t <= blockSize
  {
    blockSize * percent / 100
  }

  /** A block is signal iff strictly more samples than the block threshold are over
      the sample threshold; a count equal to the block threshold is noise. */
  predicate IsSignal(count: nat, blockSize: nat, percent: Byte): (b: bool)
    ensures b <==> blockSize * percent < 100 * count
  {
    count > BlockThreshold(blockSize, percent)
  }

  /** The inner loop of the squelch: count the pairs over the threshold and sum the
      magnitudes of the first `n` pairs held in `data`. */
  method CountBlock(data: array<Byte>, n: nat, threshold: Byte) returns (count: nat, acc: nat)
    requires 2 * n <= data.Length
    ensures count == OverCount(data[..], n, threshold)
    ensures acc == MagnitudeSum(data[..], n)
  {
    count, acc := 0, 0;
    var i := 0;
    while i < n
      invariant 0 <= i <= n
      invariant count == OverCount(data[..], i, threshold)
      invariant acc == MagnitudeSum(data[..], i)
    {
      var mag := Magnitude(data[i * 2], data[i * 2 + 1]);
      if mag > threshold {
        count := count + 1;
      }
      acc := acc + mag;
      i := i + 1;
    }
  }

  /** No pair is counted exactly when every pair is at or below the sample threshold. */
  lemma {:induction false} NoneCountedIff(buf: seq<Byte>, n: nat, threshold: Byte)
    requires 2 * n <= |buf|
    ensures OverCount(buf, n, threshold) == 0 <==> forall k :: 0 <= k < n ==> PairMagnitude(buf, k) <= threshold
  {
    if n > 0 {
      NoneCountedIff(buf, n - 1, threshold);
    }
  }

  /** Indices of the first `n` pairs whose magnitude is strictly above `threshold`. */
  ghost function LoudPairs(buf: seq<Byte>, n: nat, threshold: Byte): set<nat>
    requires 2 * n <= |buf|
  {
    set k: nat | k < n && PairMagnitude(buf, k) > threshold
  }

  /** The counter agrees with an independent definition: the number of pair indices
      whose magnitude exceeds the threshold. */
  lemma {:induction false} OverCountIsCardinality(buf: seq<Byte>, n: nat, threshold: Byte)
    requires 2 * n <= |buf|
    ensures OverCount(buf, n, threshold) == |LoudPairs(buf, n, threshold)|
  {
    if n == 0 {
      assert LoudPairs(buf, n, threshold) == {};
    } else {
      OverCountIsCardinality(buf, n - 1, threshold);
      LoudPairsGrow(buf, n, threshold);
    }
  }

  /** Looking at one more pair adds its index to the loud pairs exactly when it is loud. */
  lemma LoudPairsGrow(buf: seq<Byte>, n: nat, threshold: Byte)
    requires 0 < n && 2 * n <= |buf|
    ensures PairMagnitude(buf, n - 1) > threshold ==>
      |LoudPairs(buf, n, threshold)| == |LoudPairs(buf, n - 1, threshold)| + 1
    ensures PairMagnitude(buf, n - 1) <= threshold ==>
      LoudPairs(buf, n, threshold) == LoudPairs(buf, n - 1, threshold)
  {
    var before, after := LoudPairs(buf, n - 1, threshold), LoudPairs(buf, n, threshold);
    if PairMagnitude(buf, n - 1) > threshold {
      assert after == before + {n - 1} by {
        forall k: nat | k in after ensures k in before + {n - 1} {
          if k < n - 1 { assert k in before; }
        }
      }
      assert n - 1 !in before;
    } else {
      forall k: nat | k in after ensures k in before {
        assert k != n - 1;
      }
    }
  }

  /** Classification sees only the first `2n` bytes of a buffer. */
  lemma {:induction false} ClassifyAgrees(a: seq<Byte>, b: seq<Byte>, n: nat, threshold: Byte)
    requires 2 * n <= |a| && 2 * n <= |b|
    requires forall j :: 0 <= j < 2 * n ==> a[j] == b[j]
    ensures OverCount(a, n, threshold) == OverCount(b, n, threshold)
    ensures MagnitudeSum(a, n) == MagnitudeSum(b, n)
  {
    if n > 0 {
      ClassifyAgrees(a, b, n - 1, threshold);
      assert a[2 * n - 2] == b[2 * n - 2] && a[2 * n - 1] == b[2 * n - 1];
    }
  }

  /** Classification reads only the first `2n` bytes: whatever follows them in the
      buffer (stale bytes of an earlier read) does not affect the count or the sum. */
  lemma ClassifyReadsPrefixOnly(chunk: seq<Byte>, rest: seq<Byte>, n: nat, threshold: Byte)
    requires |chunk| == 2 * n
    ensures OverCount(chunk + rest, n, threshold) == OverCount(chunk, n, threshold)
    ensures MagnitudeSum(chunk + rest, n) == MagnitudeSum(chunk, n)
  {
    ClassifyAgrees(chunk + rest, chunk, n, threshold);
  }

  /** Magnitude is 0 exactly at the midpoint pair and at the wrapping corner. */
  lemma MagnitudeZeroIff(i: Byte, q: Byte)
    ensures Magnitude(i, q) == 0 <==> (i == 127 && q == 127) || (i == 255 && q == 255)
  {
  }

  /** Worked values of the magnitude approximation. */
  lemma MagnitudeExamples()
    ensures Magnitude(127, 127) == 0
    ensures Magnitude(128, 128) == 2
    ensures Magnitude(0, 0) == 254
    ensures Magnitude(255, 255) == 0
    ensures Magnitude(200, 200) == 146
  {
  }

  /** A read of at most `block_size * pct / 100` pairs can never be signal: the threshold
      is not scaled down for a short read. */
  lemma ShortReadIsNoise(buf: seq<Byte>, n: nat, threshold: Byte, blockSize: nat, percent: Byte)
    requires 2 * n <= |buf|
    requires n <= BlockThreshold(blockSize, percent)
    ensures !IsSignal(OverCount(buf, n, threshold), blockSize, percent)
  {
  }

  /** Every pair at the midpoint (127, 127) has magnitude 0, so such a block is counted
      empty and is noise whatever the thresholds. */
  lemma {:induction false} MidpointBlockIsNoise(buf: seq<Byte>, n: nat, threshold: Byte, blockSize: nat, percent: Byte)
    requires 2 * n <= |buf|
    requires forall j :: 0 <= j < 2 * n ==> buf[j] == 127
    ensures OverCount(buf, n, threshold) == 0
    ensures MagnitudeSum(buf, n) == 0
    ensures !IsSignal(OverCount(buf, n, threshold), blockSize, percent)
  {
    if n > 0 {
      MidpointBlockIsNoise(buf, n - 1, threshold, blockSize, percent);
      assert buf[2 * (n - 1)] == 127 && buf[2 * (n - 1) + 1] == 127;
    }
  }

  /** A full block of mid-scale pairs (128, 128) has magnitude 2 everywhere, so with a
      sample threshold below 2 every pair is counted, and with a percentage below 100 the
      block is signal: mid-scale is not silence for this code. */
  lemma {:induction false} MidScaleBlockCanTrigger(buf: seq<Byte>, blockSize: nat, threshold: Byte, percent: Byte)
    requires |buf| == 2 * blockSize && blockSize > 0
    requires forall j :: 0 <= j < |buf| ==> buf[j] == 128
    requires threshold < 2
    ensures OverCount(buf, blockSize, threshold) == blockSize
    ensures percent < 100 ==> IsSignal(OverCount(buf, blockSize, threshold), blockSize, percent)
  {
    AllCounted(buf, blockSize, threshold);
  }

  lemma {:induction false} AllCounted(buf: seq<Byte>, n: nat, threshold: Byte)
    requires 2 * n <= |buf|
    requires forall k :: 0 <= k < n ==> PairMagnitude(buf, k) > threshold
    ensures OverCount(buf, n, threshold) == n
  {
    if n > 0 {
      AllCounted(buf, n - 1, threshold);
    }
  }

  /** The worked example with block size 4, sample threshold 10 and 50 percent: two loud
      pairs reach but do not pass the block threshold of 2, three pass it. */
  lemma TieBreakExample()
    ensures BlockThreshold(4, 50) == 2
    ensures OverCount([128, 128, 128, 128, 200, 200, 200, 200], 4, 10) == 2
    ensures !IsSignal(OverCount([128, 128, 128, 128, 200, 200, 200, 200], 4, 10), 4, 50)
    ensures OverCount([128, 128, 200, 200, 200, 200, 200, 200], 4, 10) == 3
    ensures IsSignal(OverCount([128, 128, 200, 200, 200, 200, 200, 200], 4, 10), 4, 50)
  {
    var quiet: seq<Byte> := [128, 128, 128, 128, 200, 200, 200, 200];
    var loud: seq<Byte> := [128, 128, 200, 200, 200, 200, 200, 200];
    assert PairMagnitude(quiet, 0) == 2 && PairMagnitude(quiet, 1) == 2;
    assert PairMagnitude(quiet, 2) == 146 && PairMagnitude(quiet, 3) == 146;
    assert PairMagnitude(loud, 0) == 2 && PairMagnitude(loud, 1) == 146;
    assert PairMagnitude(loud, 2) == 146 && PairMagnitude(loud, 3) == 146;
  }
}
