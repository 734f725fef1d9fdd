/** Fixed-width machine integers as bounded naturals, with the wrapping and
    overflowing operations of Rust's `u8`, `u64` and `u128`, and the
    outcome type used for the `Result<(), E>` returns of the miners. */
module Words {

  const TWO_32: nat := 0x1_0000_0000
  const TWO_64: nat := 0x1_0000_0000_0000_0000

  type U8 = x: nat | x < 0x100
  type U64 = x: nat | x < 0x1_0000_0000_0000_0000
  type U128 = x: nat | x < 0x1_0000_0000_0000_0000_0000_0000_0000_0000

  /** Rust's `Result<(), E>`. */
  datatype Outcome<E> = Pass | Fail(error: E)

  function Min(a: nat, b: nat): (r: nat)
    ensures r <= a && r <= b && (r == a || r == b)
  {
    if a <= b then a else b
  }

  /** `u64::wrapping_add` */
  function WrappingAdd(a: U64, b: U64): (r: U64)
    ensures r == if a + b < TWO_64 then a + b else a + b - TWO_64
  {
    (a + b) % TWO_64
  }

  /** `u64::wrapping_sub` */
  function WrappingSub(a: U64, b: U64): (r: U64)
    ensures r == if b <= a then a - b else a - b + TWO_64
  {
    (a - b) % TWO_64
  }

  /** `u64::wrapping_mul` */
  function WrappingMul(a: U64, b: U64): (r: U64)
  {
    (a * b) % TWO_64
  }

  /** `u64::overflowing_sub`: the wrapped difference and whether it borrowed. */
  function OverflowingSub(a: U64, b: U64): (r: (U64, bool))
    ensures r.1 <==> a < b
    ensures r.0 == WrappingSub(a, b)
  {
    (WrappingSub(a, b), a < b)
  }

  /** `u64::overflowing_add`: the wrapped sum and whether it carried. */
  function OverflowingAdd(a: U64, b: U64): (r: (U64, bool))
    ensures r.1 <==> a + b >= TWO_64
    ensures r.0 == WrappingAdd(a, b)
  {
    (WrappingAdd(a, b), a + b >= TWO_64)
  }

  /** `x << 32` on a `u64`: the bits shifted past bit 63 are lost. */
  function ShiftLeft32(x: U64): (r: U64)
    ensures x < TWO_32 ==> r == x * TWO_32
  {
    (x * TWO_32) % TWO_64
  }

  /** `n as u64` on a `u128`: the low 64 bits. */
  function Low64(n: U128): U64
  {
    n % TWO_64
  }

  /** `(n >> 64) as u64` on a `u128`: the high 64 bits. */
  function High64(n: U128): (r: U64)
    ensures n == r * TWO_64 + Low64(n)
  {
    n / TWO_64
  }

  /** The full 128-bit product of two 64-bit words fits in a `u128`. */
  lemma ProductFits(a: U64, b: U64)
    ensures a * b < TWO_64 * TWO_64
  {
    MulMonotone(a, b, TWO_64 - 1);
    MulMonotone(TWO_64 - 1, a, TWO_64 - 1);
  }

  /** Quotient and remainder are the unique ones: `a == q n + r` with
      `r < n` forces `a / n == q` and `a % n == r`. */
  lemma DivModUnique(a: nat, n: nat, q: nat, r: nat)
    requires r < n && a == q * n + r
    ensures a / n == q && a % n == r
  {
    var q', r' := a / n, a % n;
    assert a == q' * n + r';
    if q' < q {
      MulMonotone(n, q' + 1, q);
      assert false;
    } else if q < q' {
      MulMonotone(n, q + 1, q');
      assert false;
    }
  }

  /** Appending `a` then `b` behind `h` is appending their concatenation. */
  lemma AppendAfter<T>(h: seq<T>, a: seq<T>, b: seq<T>, c: seq<T>)
    requires a + b == c
    ensures h + a + b == h + c
  {
    assert h + a + b == h + (a + b);
  }

  lemma MulMonotone(a: nat, b: nat, c: nat)
    requires b <= c
    ensures a * b <= a * c
  {
    assert a * c - a * b == a * (c - b);
  }
}
