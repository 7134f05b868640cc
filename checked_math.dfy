/** Fixed-width signed integers and Rust's checked arithmetic on them.

    The settlement program stores `i64` and `i128` values and combines them
    only through `checked_sub`, `checked_mul`, `checked_add` and `abs`. Here
    the widths are ranges over Dafny's unbounded `int`, and each checked
    operation yields `None` exactly where Rust's yields `None`. */
module CheckedMath {

  datatype Option<T> = None | Some(value: T)

  const Int64Min: int := -0x8000_0000_0000_0000
  const Int64Max: int := 0x7FFF_FFFF_FFFF_FFFF
  const Int128Min: int := -0x8000_0000_0000_0000_0000_0000_0000_0000
  const Int128Max: int := 0x7FFF_FFFF_FFFF_FFFF_FFFF_FFFF_FFFF_FFFF

  /** 2^63, the magnitude of `i64::MIN`. */
  const Pow63: int := 0x8000_0000_0000_0000

  predicate IsInt64(x: int) { Int64Min <= x <= Int64Max }
  predicate IsInt128(x: int) { Int128Min <= x <= Int128Max }

  /** Rust's `i64`. */
  type Int64 = x: int | Int64Min <= x <= Int64Max
  /** Rust's `i128`. */
  type Int128 = x: int | Int128Min <= x <= Int128Max

  /** `i64::checked_sub`. */
  function CheckedSub64(a: Int64, b: Int64): (r: Option<Int64>)
    ensures r.Some? <==> IsInt64(a - b)
    ensures r.Some? ==> r.value == a - b
  {
    if IsInt64(a - b) then Some(a - b) else None
  }

  /** `i128::checked_mul`. */
  function CheckedMul128(a: Int128, b: Int128): (r: Option<Int128>)
    ensures r.Some? <==> IsInt128(a * b)
    ensures r.Some? ==> r.value == a * b
  {
    if IsInt128(a * b) then Some(a * b) else None
  }

  /** `i128::checked_sub`. */
  function CheckedSub128(a: Int128, b: Int128): (r: Option<Int128>)
    ensures r.Some? <==> IsInt128(a - b)
    ensures r.Some? ==> r.value == a - b
  {
    if IsInt128(a - b) then Some(a - b) else None
  }

  /** `i128::checked_add`. */
  function CheckedAdd128(a: Int128, b: Int128): (r: Option<Int128>)
    ensures r.Some? <==> IsInt128(a + b)
    ensures r.Some? ==> r.value == a + b
  {
    if IsInt128(a + b) then Some(a + b) else None
  }

  /** `i64::abs` in a build with overflow checks on: the magnitude of `x`,
      or `None` for `i64::MIN`, whose magnitude is not an `i64` and on which
      the call panics. */
  function Abs64(x: Int64): (r: Option<Int64>)
    ensures r.None? <==> x == Int64Min
    ensures r.Some? ==> 0 <= r.value && (r.value == x || r.value == -(x as int))
  {
    if x == Int64Min then None
    else if x < 0 then Some(-(x as int))
    else Some(x)
  }

  /** Multiplication is monotone on non-negative factors. */
  lemma MulMonotone(a: int, b: int, bigA: int, bigB: int)
    requires 0 <= a <= bigA && 0 <= b <= bigB
    ensures a * b <= bigA * bigB
  {
    assert a * b <= bigA * b;
    assert bigA * b <= bigA * bigB;
  }

  /** A bound on each factor's magnitude bounds the product's magnitude. */
  lemma MulBounded(a: int, b: int, bigA: int, bigB: int)
    requires -bigA <= a <= bigA && -bigB <= b <= bigB
    ensures -(bigA * bigB) <= a * b <= bigA * bigB
  {
    var absA := if a < 0 then -a else a;
    var absB := if b < 0 then -b else b;
    MulMonotone(absA, absB, bigA, bigB);
    assert a * b == absA * absB || a * b == -(absA * absB);
  }
}
