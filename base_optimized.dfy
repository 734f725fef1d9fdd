/** Goldilocks-field batch arithmetic of the zkVM jet pack: per-lane modular
    addition and multiplication as the AVX-512 kernels compute them, the
    128-bit reduction those kernels rely on, the chunk-and-pad batch driver
    and Horner evaluation of polynomials.

    The field prime is PRIME = 2^64 - 2^32 + 1. The scalar reference
    operations `base::badd`, `base::bmul` and `base::reduce` are taken to be
    the mathematical `(a + b) % PRIME`, `(a * b) % PRIME` and `n % PRIME`. */
module BaseOptimized {
  import opened Words

  const PRIME: U64 := 0xFFFF_FFFF_0000_0001
  /** 2^32 - 1; note 2^64 == PRIME + EPSILON. */
  const EPSILON: U64 := 0xFFFF_FFFF
  /** Lanes of one 512-bit vector of 64-bit words. */
  const SIMD_WIDTH: nat := 8

  // ---------------------------------------------------------------------
  // Scalar reference operations (base::badd, base::bmul, base::reduce)
  // ---------------------------------------------------------------------

  function Badd(a: U64, b: U64): (r: U64)
    ensures r < PRIME
  {
    (a + b) % PRIME
  }

  function Bmul(a: U64, b: U64): (r: U64)
    ensures r < PRIME
  {
    (a * b) % PRIME
  }

  function Reduce(n: U128): (r: U64)
    ensures r < PRIME
  {
    n % PRIME
  }

  lemma ModMultiple(m: int, y: int)
    ensures (m * PRIME + y) % PRIME == y % PRIME
  {
  }

  /** Congruent factors give congruent products. */
  lemma MulModCongruent(a: nat, b: nat, x: nat)
    requires a % PRIME == b % PRIME
    ensures (a * x) % PRIME == (b * x) % PRIME
  {
    var r := a % PRIME;
    var qa, qb := a / PRIME, b / PRIME;
    assert a == qa * PRIME + r;
    assert b == qb * PRIME + r;
    assert a * x == (qa * x) * PRIME + r * x;
    assert b * x == (qb * x) * PRIME + r * x;
    ModMultiple(qa * x, r * x);
    ModMultiple(qb * x, r * x);
  }

  // ---------------------------------------------------------------------
  // One lane of badd_batch_avx512
  // ---------------------------------------------------------------------

  /** The lane computation of `badd_batch_avx512`: `neg_b = PRIME - b`,
      `diff = a - neg_b`, and PRIME added back when `a < neg_b`, all with
      64-bit wrap-around. On field elements it is field addition. */
  function BaddLane(a: U64, b: U64): (r: U64)
    ensures a < PRIME && b < PRIME ==> r == Badd(a, b) && r < PRIME
  {
    var negB := WrappingSub(PRIME, b);
    var diff := WrappingSub(a, negB);
    var correction: U64 := if a < negB then PRIME else 0;
    WrappingAdd(diff, correction)
  }

  // ---------------------------------------------------------------------
  // reduce_128_optimized, as written
  // ---------------------------------------------------------------------

  /** `reduce_128_optimized` exactly as the source computes it:
      `low - high * (2^32 - 1) + high`, with wrapping multiplication, a
      borrow fixed by adding PRIME, and a final conditional subtraction.
      It agrees with `n % PRIME` when the high word is zero. */
  function Reduce128Optimized(n: U128): (r: U64)
    ensures n < TWO_64 ==> r == Reduce(n)
  {
    var low := Low64(n);
    var high := High64(n);
    var temp := WrappingMul(high, EPSILON);
    var sub := OverflowingSub(low, temp);
    var result := if sub.1 then WrappingAdd(sub.0, PRIME) else sub.0;
    var add := OverflowingAdd(result, high);
    if add.1 || add.0 >= PRIME then WrappingSub(add.0, PRIME) else add.0
  }

  /** What the reduction really computes when the high word is below 2^32:
      a value congruent to `low - high * (2^32 - 2)`, whereas
      `n % PRIME` is congruent to `low + high * (2^32 - 1)`. The two differ
      by `high * (2^33 - 3)`. */
  lemma Reduce128OptimizedCongruence(n: U128)
    requires High64(n) < TWO_32
    ensures (Reduce128Optimized(n) + High64(n) * (TWO_32 - 2)) % PRIME == Low64(n) % PRIME
    ensures n % PRIME == (Low64(n) + High64(n) * EPSILON) % PRIME
  {
    var low := Low64(n);
    var high := High64(n);
    var temp := WrappingMul(high, EPSILON);
    assert temp == high * EPSILON;
    var sub := OverflowingSub(low, temp);
    var result := if sub.1 then WrappingAdd(sub.0, PRIME) else sub.0;
    assert result == if sub.1 then low - temp + PRIME else low - temp;
    var add := OverflowingAdd(result, high);
    var r := Reduce128Optimized(n);
    assert r == if add.1 then result + high - PRIME
                else if add.0 >= PRIME then result + high - PRIME
                else result + high;
    assert n == low + high * PRIME + high * EPSILON;
    ModMultiple(high, low + high * EPSILON);
    if sub.1 {
      assert r + high * (TWO_32 - 2) == low + (if r == result + high then PRIME else 0);
    }
  }

  /** The source's own test asserts agreement with `reduce` on six inputs;
      the first five are below 2^64, where the two agree. */
  lemma Reduce128OptimizedTestCases()
    ensures Reduce128Optimized(0) == Reduce(0)
    ensures Reduce128Optimized(PRIME - 1) == Reduce(PRIME - 1)
    ensures Reduce128Optimized(PRIME) == Reduce(PRIME)
    ensures Reduce128Optimized(PRIME + 1) == Reduce(PRIME + 1)
    ensures Reduce128Optimized(TWO_64 - 1) == Reduce(TWO_64 - 1)
  {
  }

  /** The sixth test input, (2^64 - 1)^2, is a counterexample: its high word
      is 2^64 - 2 and its low word 1, and the reduction yields 2^33 - 3
      where the residue is 2^64 - 2^34 + 4. */
  lemma Reduce128OptimizedSquareCounterexample()
    ensures Reduce128Optimized((TWO_64 - 1) * (TWO_64 - 1)) == 0x1_FFFF_FFFD
    ensures Reduce((TWO_64 - 1) * (TWO_64 - 1)) == 0xFFFF_FFFC_0000_0004
    ensures Reduce128Optimized((TWO_64 - 1) * (TWO_64 - 1)) != Reduce((TWO_64 - 1) * (TWO_64 - 1))
  {
    var n: U128 := 0xFFFF_FFFF_FFFF_FFFE_0000_0000_0000_0001;
    assert n == (TWO_64 - 1) * (TWO_64 - 1);
    DivModUnique(n, TWO_64, 0xFFFF_FFFF_FFFF_FFFE, 1);
    var high: U64 := 0xFFFF_FFFF_FFFF_FFFE;
    assert Low64(n) == 1 && High64(n) == high;
    DivModUnique(high * EPSILON, TWO_64, 0xFFFF_FFFE, 0xFFFF_FFFE_0000_0002);
    assert WrappingMul(high, EPSILON) == 0xFFFF_FFFE_0000_0002;
    assert OverflowingSub(1, 0xFFFF_FFFE_0000_0002) == (0x1_FFFF_FFFF, true);
    assert WrappingAdd(0x1_FFFF_FFFF, PRIME) == TWO_32;
    assert OverflowingAdd(TWO_32, high) == (TWO_32 - 2, true);
    assert WrappingSub(TWO_32 - 2, PRIME) == 0x1_FFFF_FFFD;
    DivModUnique(n, PRIME, 0x1_0000_0000_FFFF_FFFD, 0xFFFF_FFFC_0000_0004);
  }

  // ---------------------------------------------------------------------
  // A correct 128-bit reduction
  // ---------------------------------------------------------------------

  /** A 128-bit reduction that holds for every input: the high word is split
      into halves, using 2^64 == 2^32 - 1 and 2^96 == -1 modulo PRIME, so
      that `n` is congruent to `low - high_hi + high_lo * (2^32 - 1)`; no
      intermediate value wraps unaccounted. */
  function Reduce128Corrected(n: U128): (r: U64)
    ensures r == Reduce(n)
  {
    var low := Low64(n);
    var high := High64(n);
    var highHi: U64 := high / TWO_32;
    var highLo: U64 := high % TWO_32;
    var sub := OverflowingSub(low, highHi);
    var t0 := if sub.1 then WrappingSub(sub.0, EPSILON) else sub.0;
    var t1: U64 := highLo * EPSILON;
    var add := OverflowingAdd(t0, t1);
    var t2 := if add.1 then WrappingAdd(add.0, EPSILON) else add.0;
    CorrectedReductionSteps(n, low, high, highHi, highLo, t0, t1, t2);
    if t2 >= PRIME then t2 - PRIME else t2
  }

  lemma CorrectedReductionSteps(n: U128, low: U64, high: U64, highHi: U64, highLo: U64,
                                t0: U64, t1: U64, t2: U64)
    requires low == Low64(n) && high == High64(n)
    requires highHi == high / TWO_32 && highLo == high % TWO_32
    requires t0 == if low < highHi then WrappingSub(WrappingSub(low, highHi), EPSILON)
                   else WrappingSub(low, highHi)
    requires t1 == highLo * EPSILON
    requires t2 == if t0 + t1 >= TWO_64 then WrappingAdd(WrappingAdd(t0, t1), EPSILON)
                   else WrappingAdd(t0, t1)
    ensures t2 % PRIME == n % PRIME
  {
    assert t0 == low - highHi + (if low < highHi then PRIME else 0);
    assert t1 <= (TWO_32 - 1) * EPSILON;
    assert t2 == t0 + t1 - (if t0 + t1 >= TWO_64 then PRIME else 0);
    assert n == low + highLo * TWO_64 + highHi * (TWO_32 * TWO_64);
    assert n == (low - highHi + highLo * EPSILON) + (highLo + highHi * (TWO_32 + 1)) * PRIME;
    ModMultiple(highLo + highHi * (TWO_32 + 1), low - highHi + highLo * EPSILON);
    ModMultiple(1, low - highHi + highLo * EPSILON);
    ModMultiple(-1, low - highHi + highLo * EPSILON + PRIME);
    ModMultiple(1, t2);
  }

  // ---------------------------------------------------------------------
  // One lane of bmul_batch_avx512
  // ---------------------------------------------------------------------

  /** The lane computation of `bmul_batch_avx512`: the low and high words
      of the full product (`mullo`, `mulhi`), recombined into a `u128` and
      passed to `reduce_128_optimized`. It is field multiplication whenever
      the product is below 2^64; for some larger products, such as
      2^32 * 2^32, it is not. */
  function BmulLane(a: U64, b: U64): (r: U64)
    ensures a * b < TWO_64 ==> r == Bmul(a, b)
  {
    ProductFits(a, b);
    var lo := WrappingMul(a, b);
    var hi: U64 := (a * b) / TWO_64;
    var product: U128 := hi * TWO_64 + lo;
    assert product == a * b;
    Reduce128Optimized(product)
  }

  /** The multiplication lane with the reduction corrected. */
  function BmulLaneCorrected(a: U64, b: U64): (r: U64)
    ensures r == Bmul(a, b)
  {
    ProductFits(a, b);
    Reduce128Corrected(a * b)
  }

  /** Two field elements, 2^32 and 2^32, on which the AVX-512 lane and
      `base::bmul` disagree: the lane yields 2^64 - 2^33 + 3 where the field
      product is 2^32 - 1. */
  lemma BmulLaneDisagreesOnTwoTo32()
    ensures TWO_32 < PRIME
    ensures BmulLane(TWO_32, TWO_32) == 0xFFFF_FFFE_0000_0003
    ensures Bmul(TWO_32, TWO_32) == EPSILON
    ensures BmulLane(TWO_32, TWO_32) != Bmul(TWO_32, TWO_32)
  {
    assert TWO_32 * TWO_32 == TWO_64;
    DivModUnique(TWO_64, TWO_64, 1, 0);
    assert Low64(TWO_64) == 0 && High64(TWO_64) == 1;
    assert WrappingMul(1, EPSILON) == EPSILON;
    assert OverflowingSub(0, EPSILON) == (TWO_64 - EPSILON, true);
    assert WrappingAdd(TWO_64 - EPSILON, PRIME) == 0xFFFF_FFFE_0000_0002;
    assert OverflowingAdd(0xFFFF_FFFE_0000_0002, 1) == (0xFFFF_FFFE_0000_0003, false);
    assert Reduce128Optimized(TWO_64) == 0xFFFF_FFFE_0000_0003;
    DivModUnique(TWO_64, PRIME, 1, EPSILON);
  }

  // ---------------------------------------------------------------------
  // The AVX-512 batch kernels
  // ---------------------------------------------------------------------

  /** `badd_batch_avx512`: the lengths must agree and be a multiple of 8
      (the source asserts this); each 8-lane vector is stored at once. */
  method BaddBatchAvx512(a: seq<U64>, b: seq<U64>, result: array<U64>)
    requires |a| == |b| == result.Length
    requires |a| % SIMD_WIDTH == 0
    modifies result
    ensures forall i :: 0 <= i < result.Length ==> result[i] == BaddLane(a[i], b[i])
  {
    var i := 0;
    while i < |a|
      invariant 0 <= i <= |a| && i % SIMD_WIDTH == 0
      invariant forall k :: 0 <= k < i ==> result[k] == BaddLane(a[k], b[k])
    {
      forall j | 0 <= j < SIMD_WIDTH {
        result[i + j] := BaddLane(a[i + j], b[i + j]);
      }
      i := i + SIMD_WIDTH;
    }
  }

  /** `bmul_batch_avx512`: same shape; the eight lanes of each vector
      product are reduced one after the other. */
  method BmulBatchAvx512(a: seq<U64>, b: seq<U64>, result: array<U64>)
    requires |a| == |b| == result.Length
    requires |a| % SIMD_WIDTH == 0
    modifies result
    ensures forall i :: 0 <= i < result.Length ==> result[i] == BmulLane(a[i], b[i])
  {
    var i := 0;
    while i < |a|
      invariant 0 <= i <= |a| && i % SIMD_WIDTH == 0
      invariant forall k :: 0 <= k < i ==> result[k] == BmulLane(a[k], b[k])
    {
      for j := 0 to SIMD_WIDTH
        invariant forall k :: 0 <= k < i + j ==> result[k] == BmulLane(a[k], b[k])
      {
        result[i + j] := BmulLane(a[i + j], b[i + j]);
      }
      i := i + SIMD_WIDTH;
    }
  }

  // ---------------------------------------------------------------------
  // BatchProcessor
  // ---------------------------------------------------------------------

  /** `((n + SIMD_WIDTH - 1) / SIMD_WIDTH) * SIMD_WIDTH`: the least multiple
      of the SIMD width that is at least `n`. */
  function PaddedLen(n: nat): (r: nat)
    ensures r % SIMD_WIDTH == 0
    ensures n <= r < n + SIMD_WIDTH
  {
    ((n + SIMD_WIDTH - 1) / SIMD_WIDTH) * SIMD_WIDTH
  }

  function Zeros(n: nat): (z: seq<U64>)
    ensures |z| == n && forall i :: 0 <= i < n ==> z[i] == 0
  {
    seq(n, _ => 0)
  }

  /** Element `i` of `process_batch_add`'s result: the AVX-512 lane when the
      CPU has AVX-512, else the scalar `base::badd`. The two agree on field
      elements. */
  function AddLaneResult(avx512: bool, x: U64, y: U64): (r: U64)
    ensures x < PRIME && y < PRIME ==> r == Badd(x, y)
    ensures !avx512 ==> r == Badd(x, y)
  {
    if avx512 then BaddLane(x, y) else Badd(x, y)
  }

  /** Element `i` of `process_batch_mul`'s result: the AVX-512 lane when the
      CPU has AVX-512, else the scalar `base::bmul`. The two agree whenever
      the product is below 2^64, and disagree for some larger products. */
  function MulLaneResult(avx512: bool, x: U64, y: U64): (r: U64)
    ensures x * y < TWO_64 || !avx512 ==> r == Bmul(x, y)
  {
    if avx512 then BmulLane(x, y) else Bmul(x, y)
  }

  /** The kernel call on one padded chunk of `process_batch_add`: the
      AVX-512 kernel over the whole chunk when the CPU has AVX-512, else the
      scalar `base::badd` over its first `chunkLen` elements only. */
  method AddChunk(aChunk: seq<U64>, bChunk: seq<U64>, chunkLen: nat, avx512: bool)
    returns (resultChunk: array<U64>)
    requires |aChunk| == |bChunk| && |aChunk| % SIMD_WIDTH == 0 && chunkLen <= |aChunk|
    ensures fresh(resultChunk) && resultChunk.Length == |aChunk|
    ensures forall j :: 0 <= j < chunkLen ==> resultChunk[j] == AddLaneResult(avx512, aChunk[j], bChunk[j])
  {
    resultChunk := new U64[|aChunk|](_ => 0);
    if avx512 {
      BaddBatchAvx512(aChunk, bChunk, resultChunk);
    } else {
      for i := 0 to chunkLen
        invariant forall k :: 0 <= k < i ==> resultChunk[k] == Badd(aChunk[k], bChunk[k])
      {
        resultChunk[i] := Badd(aChunk[i], bChunk[i]);
      }
    }
  }

  /** The kernel call on one padded chunk of `process_batch_mul`. */
  method MulChunk(aChunk: seq<U64>, bChunk: seq<U64>, chunkLen: nat, avx512: bool)
    returns (resultChunk: array<U64>)
    requires |aChunk| == |bChunk| && |aChunk| % SIMD_WIDTH == 0 && chunkLen <= |aChunk|
    ensures fresh(resultChunk) && resultChunk.Length == |aChunk|
    ensures forall j :: 0 <= j < chunkLen ==> resultChunk[j] == MulLaneResult(avx512, aChunk[j], bChunk[j])
  {
    resultChunk := new U64[|aChunk|](_ => 0);
    if avx512 {
      BmulBatchAvx512(aChunk, bChunk, resultChunk);
    } else {
      for i := 0 to chunkLen
        invariant forall k :: 0 <= k < i ==> resultChunk[k] == Bmul(aChunk[k], bChunk[k])
      {
        resultChunk[i] := Bmul(aChunk[i], bChunk[i]);
      }
    }
  }

  class BatchProcessor {
    /** Chunk length, rounded up to the SIMD width. */
    const batchSize: nat

    constructor (maxElements: nat)
      ensures batchSize == PaddedLen(maxElements)
      ensures batchSize % SIMD_WIDTH == 0 && maxElements <= batchSize < maxElements + SIMD_WIDTH
    {
      batchSize := PaddedLen(maxElements);
    }

    /** `process_batch_add`: the inputs are cut into chunks of `batchSize`
        elements, each chunk is zero-padded to the SIMD width, added, and its
        first `chunk_len` results copied out. `step_by(0)` panics, so the
        chunk size `min(batchSize, len)` must be positive. */
    method ProcessBatchAdd(a: seq<U64>, b: seq<U64>, avx512: bool) returns (result: seq<U64>)
      requires batchSize > 0 && Min(|a|, |b|) > 0
      ensures |result| == Min(|a|, |b|)
      ensures forall i :: 0 <= i < |result| ==> result[i] == AddLaneResult(avx512, a[i], b[i])
    {
      var len := Min(|a|, |b|);
      var out := new U64[len](_ => 0);
      var chunkSize := Min(batchSize, len);
      var chunkStart := 0;
      while chunkStart < len
        invariant forall k :: 0 <= k < len && k < chunkStart ==> out[k] == AddLaneResult(avx512, a[k], b[k])
        decreases len - chunkStart
      {
        var chunkEnd := Min(chunkStart + chunkSize, len);
        var chunkLen := chunkEnd - chunkStart;
        var paddedLen := PaddedLen(chunkLen);
        var aChunk := a[chunkStart..chunkEnd] + Zeros(paddedLen - chunkLen);
        var bChunk := b[chunkStart..chunkEnd] + Zeros(paddedLen - chunkLen);
        var resultChunk := AddChunk(aChunk, bChunk, chunkLen, avx512);
        assert forall j :: 0 <= j < chunkLen ==>
          resultChunk[j] == AddLaneResult(avx512, a[chunkStart + j], b[chunkStart + j]);
        forall k | chunkStart <= k < chunkEnd {
          out[k] := resultChunk[k - chunkStart];
        }
        chunkStart := chunkStart + chunkSize;
      }
      result := out[..];
    }

    /** `process_batch_mul`: as `process_batch_add`, with multiplication. */
    method ProcessBatchMul(a: seq<U64>, b: seq<U64>, avx512: bool) returns (result: seq<U64>)
      requires batchSize > 0 && Min(|a|, |b|) > 0
      ensures |result| == Min(|a|, |b|)
      ensures forall i :: 0 <= i < |result| ==> result[i] == MulLaneResult(avx512, a[i], b[i])
    {
      var len := Min(|a|, |b|);
      var out := new U64[len](_ => 0);
      var chunkSize := Min(batchSize, len);
      var chunkStart := 0;
      while chunkStart < len
        invariant forall k :: 0 <= k < len && k < chunkStart ==> out[k] == MulLaneResult(avx512, a[k], b[k])
        decreases len - chunkStart
      {
        var chunkEnd := Min(chunkStart + chunkSize, len);
        var chunkLen := chunkEnd - chunkStart;
        var paddedLen := PaddedLen(chunkLen);
        var aChunk := a[chunkStart..chunkEnd] + Zeros(paddedLen - chunkLen);
        var bChunk := b[chunkStart..chunkEnd] + Zeros(paddedLen - chunkLen);
        var resultChunk := MulChunk(aChunk, bChunk, chunkLen, avx512);
        assert forall j :: 0 <= j < chunkLen ==>
          resultChunk[j] == MulLaneResult(avx512, a[chunkStart + j], b[chunkStart + j]);
        forall k | chunkStart <= k < chunkEnd {
          out[k] := resultChunk[k - chunkStart];
        }
        chunkStart := chunkStart + chunkSize;
      }
      result := out[..];
    }
  }

  // ---------------------------------------------------------------------
  // poly_eval_optimized
  // ---------------------------------------------------------------------

  function Pow(x: nat, k: nat): nat
  {
    if k == 0 then 1 else x * Pow(x, k - 1)
  }

  /** The value of the polynomial with coefficients `c` (lowest degree
      first) at `x`: the sum of `c[i] * x^i`, over the integers. */
  function PowerSum(c: seq<nat>, x: nat): nat
  {
    if |c| == 0 then 0 else PowerSum(c[..|c| - 1], x) + c[|c| - 1] * Pow(x, |c| - 1)
  }

  /** The same value in Horner's nested form. */
  function Horner(c: seq<nat>, x: nat): nat
  {
    if |c| == 0 then 0 else c[0] + x * Horner(c[1..], x)
  }

  /** The power sum peels off its constant term Horner's way. */
  lemma {:induction false} PowerSumCons(c: seq<nat>, x: nat)
    requires |c| > 0
    ensures PowerSum(c, x) == c[0] + x * PowerSum(c[1..], x)
  {
    var n := |c|;
    if n == 1 {
      assert c[..0] == [] && c[1..] == [];
    } else {
      var init := c[..n - 1];
      var tail := c[1..];
      PowerSumCons(init, x);
      assert init[0] == c[0];
      assert init[1..] == tail[..n - 2];
      assert tail[n - 2] == c[n - 1];
      var s := PowerSum(tail[..n - 2], x);
      var p := Pow(x, n - 2);
      assert PowerSum(tail, x) == s + c[n - 1] * p;
      assert PowerSum(init, x) == c[0] + x * s;
      assert Pow(x, n - 1) == x * p;
      Regroup(x, s, c[n - 1], p);
    }
  }

  lemma Regroup(x: nat, s: nat, a: nat, p: nat)
    ensures x * s + a * (x * p) == x * (s + a * p)
  {
    assert a * (x * p) == x * (a * p);
  }

  lemma {:induction false} HornerIsPowerSum(c: seq<nat>, x: nat)
    ensures Horner(c, x) == PowerSum(c, x)
  {
    if |c| > 0 {
      HornerIsPowerSum(c[1..], x);
      PowerSumCons(c, x);
    }
  }

  /** One step of the evaluation loop keeps the accumulator congruent to the
      Horner value of the coefficients seen so far. */
  lemma HornerStepMod(acc: U64, v: nat, x: U64, c: U64)
    requires acc % PRIME == v % PRIME
    ensures Badd(Bmul(acc, x), c) % PRIME == (c + x * v) % PRIME
  {
    MulModCongruent(acc, v, x);
    var y := acc * x;
    assert Bmul(acc, x) == y % PRIME;
    ModMultiple(y / PRIME, y % PRIME + c);
    assert x * v == v * x;
    ModMultiple((v * x) / PRIME, (v * x) % PRIME + c);
  }

  /** The loop step on suffixes: folding in `coeffs[k]` takes an
      accumulator for the suffix from `k + 1` to one for the suffix from `k`. */
  lemma HornerSuffixStep(coeffs: seq<U64>, x: U64, k: nat, acc: U64)
    requires k + 1 < |coeffs|
    requires acc % PRIME == Horner(coeffs[k + 1..], x) % PRIME
    ensures Badd(Bmul(acc, x), coeffs[k]) % PRIME == Horner(coeffs[k..], x) % PRIME
  {
    assert coeffs[k..][1..] == coeffs[k + 1..];
    HornerStepMod(acc, Horner(coeffs[k + 1..], x), x, coeffs[k]);
  }

  /** The suffix from 0 is the whole polynomial. */
  lemma HornerSuffixWhole(coeffs: seq<U64>, x: U64)
    ensures Horner(coeffs[0..], x) == PowerSum(coeffs, x)
  {
    assert coeffs[0..] == coeffs;
    HornerIsPowerSum(coeffs, x);
  }

  /** `poly_eval_optimized`: 0 for no coefficients; otherwise Horner's rule
      from the leading coefficient down, with `badd`/`bmul`. The leading
      coefficient starts the accumulator unreduced, so a constant polynomial
      returns its coefficient as given. */
  method PolyEvalOptimized(coeffs: seq<U64>, x: U64) returns (r: U64)
    ensures |coeffs| == 0 ==> r == 0
    ensures |coeffs| == 1 ==> r == coeffs[0]
    ensures |coeffs| >= 2 ==> r == PowerSum(coeffs, x) % PRIME
  {
    if |coeffs| == 0 {
      return 0;
    }
    var result: U64 := coeffs[|coeffs| - 1];
    var k := |coeffs| - 1;
    assert coeffs[k..][1..] == [];
    while k > 0
      invariant 0 <= k <= |coeffs| - 1
      invariant result % PRIME == Horner(coeffs[k..], x) % PRIME
      invariant k == |coeffs| - 1 ==> result == coeffs[k]
      invariant k < |coeffs| - 1 ==> result < PRIME
    {
      k := k - 1;
      HornerSuffixStep(coeffs, x, k, result);
      result := Badd(Bmul(result, x), coeffs[k]);
    }
    HornerSuffixWhole(coeffs, x);
    r := result;
  }
}
