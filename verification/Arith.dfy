/** Checked fixed-width arithmetic and the floor-division facts every payout and
    every rollover rests on (shared/src/math.rs). */
module Arith {
  import opened Common

  const I128_MAX: int := 0x7FFF_FFFF_FFFF_FFFF_FFFF_FFFF_FFFF_FFFF
  const I128_MIN: int := -0x8000_0000_0000_0000_0000_0000_0000_0000
  const U64_MAX: int := 0xFFFF_FFFF_FFFF_FFFF
  const U32_MAX: int := 0xFFFF_FFFF
  const BPS: int := 10_000

  predicate InI128(x: int) { I128_MIN <= x <= I128_MAX }

  type I128 = x: int | InI128(x)

  function Min(a: int, b: int): int { if a <= b then a else b }

  function Max(a: int, b: int): int { if a >= b then a else b }

  // ----- checked operations -----

  function CheckedAdd(a: int, b: int): Result<int> {
    if InI128(a + b) then Ok(a + b) else Err(Overflow)
  }

  function CheckedSub(a: int, b: int): Result<int> {
    if InI128(a - b) then Ok(a - b) else Err(Overflow)
  }

  function CheckedMul(a: int, b: int): Result<int> {
    if InI128(a * b) then Ok(a * b) else Err(Overflow)
  }

  /** Integer division truncating toward zero, as the source language divides. */
  function TruncDiv(a: int, b: int): int
    requires b != 0
  {
    if a >= 0 then a / b else -((-a) / b)
  }

  function CheckedDiv(a: int, b: int): Result<int> {
    if b == 0 then Err(InvalidInput)
    else if InI128(TruncDiv(a, b)) then Ok(TruncDiv(a, b))
    else Err(Overflow)
  }

  function CheckedRem(a: int, b: int): Result<int> {
    if b == 0 then Err(InvalidInput)
    else if InI128(TruncDiv(a, b)) then Ok(a - b * TruncDiv(a, b))
    else Err(Overflow)
  }

  function SaturateI128(x: int): int { Max(I128_MIN, Min(x, I128_MAX)) }

  function SaturateU64(x: nat): nat { Min(x, U64_MAX) }

  /** The low 64 bits: what `as u64` keeps of a wider non-negative value. */
  function TruncateU64(x: nat): nat { x % (U64_MAX + 1) }

  // ----- floor division -----

  lemma FloorBounds(n: nat, d: nat)
    requires d > 0
    ensures d * (n / d) <= n <= d * (n / d) + (d - 1)
  {
  }

  /** `q` is the floor of `n / d` once it is squeezed between the two multiples. */
  lemma FloorUnique(n: nat, d: nat, q: int)
    requires d > 0
    requires d * q <= n < d * q + d
    ensures n / d == q
  {
    var f := n / d;
    FloorBounds(n, d);
    if q < f {
      assert d * (q + 1) <= d * f by { MulMonotone(d, q + 1, f); }
    } else if f < q {
      assert d * (f + 1) <= d * q by { MulMonotone(d, f + 1, q); }
    }
  }

  lemma MulMonotone(d: nat, a: int, b: int)
    requires a <= b
    ensures d * a <= d * b
  {
  }

  lemma FloorMonotone(a: nat, b: nat, d: nat)
    requires d > 0 && a <= b
    ensures a / d <= b / d
  {
    FloorBounds(a, d);
    FloorBounds(b, d);
    if b / d < a / d {
      MulMonotone(d, b / d + 1, a / d);
    }
  }

  lemma FloorOfMultiple(q: nat, d: nat)
    requires d > 0
    ensures (q * d) / d == q
  {
    FloorUnique(q * d, d, q);
  }

  /** Taking `k` whole multiples out of a dividend moves the quotient by `k`. */
  lemma FloorShift(n: nat, k: nat, d: nat)
    requires d > 0 && k * d <= n
    ensures n / d == k + (n - k * d) / d
  {
    var q := (n - k * d) / d;
    FloorBounds(n - k * d, d);
    assert d * (k + q) == d * k + d * q;
    FloorUnique(n, d, k + q);
  }

  // ----- shares -----

  /** The floored share `x / whole` of an amount. */
  function Portion(amount: int, x: int, whole: int): int { if whole == 0 then 0 else (amount * x) / whole }

  lemma PortionOfNothing(x: int, whole: int)
    ensures Portion(0, x, whole) == 0
  {
    assert 0 * x == 0;
  }

  lemma PortionNonNegative(amount: nat, x: nat, whole: nat)
    ensures Portion(amount, x, whole) >= 0
  {
    assert amount * x >= 0;
  }

  // ----- basis points -----

  /** What "`bps` basis points of `x`" means. */
  function BpsOf(x: nat, bps: nat): nat { (x * bps) / BPS }

  /** The overflow-free evaluation of the same quantity: split `x` by 10 000 and
      recombine (the quotient/remainder form of math.rs and of the budget's
      `percentage_of_limit`). */
  function SplitBps(x: int, bps: int): Result<int> {
    var q :- CheckedDiv(x, BPS);
    var r :- CheckedRem(x, BPS);
    var whole :- CheckedMul(q, bps);
    var scaled :- CheckedMul(r, bps);
    var part :- CheckedDiv(scaled, BPS);
    CheckedAdd(whole, part)
  }

  /** Recombining the scaled quotient and remainder gives the floor of the whole product. */
  lemma Recombine(x: nat, bps: nat, q: nat, r: nat, whole: int, scaled: int)
    requires x == q * BPS + r && r < BPS && bps <= BPS && whole == q * bps && scaled == r * bps
    ensures 0 <= whole <= x && 0 <= scaled <= BPS * BPS
    ensures whole + scaled / BPS == BpsOf(x, bps)
  {
    MulMonotone(q, 0, bps);
    MulMonotone(q, bps, BPS);
    MulMonotone(r, 0, bps);
    MulMonotone(r, bps, BPS);
    SplitProduct(q, r, bps, whole, scaled);
    assert x * bps == whole * BPS + scaled;
    FloorShift(whole * BPS + scaled, whole, BPS);
  }

  lemma SplitProduct(q: nat, r: nat, bps: nat, whole: int, scaled: int)
    requires whole == q * bps && scaled == r * bps
    ensures (q * BPS + r) * bps == whole * BPS + scaled
  {
  }

  lemma CheckedMulFits(a: int, b: int, p: int)
    requires p == a * b && InI128(p)
    ensures CheckedMul(a, b) == Ok(p)
  {
  }

  lemma BpsAtMostWhole(x: nat, bps: nat)
    requires bps <= BPS
    ensures BpsOf(x, bps) <= x
    ensures bps == BPS ==> BpsOf(x, bps) == x
    ensures bps < BPS && x > 0 ==> BpsOf(x, bps) < x
  {
    MulMonotone(x, bps, BPS);
    FloorBounds(x * bps, BPS);
    if bps < BPS && x > 0 {
      assert x * bps < x * BPS by { MulMonotone(x, bps, BPS - 1); }
    }
  }

  lemma BpsMonotone(x: nat, y: nat, bps: nat)
    requires x <= y
    ensures BpsOf(x, bps) <= BpsOf(y, bps)
  {
    assert x * bps <= y * bps by { MulMonotone(bps, x, y); }
    FloorMonotone(x * bps, y * bps, BPS);
  }

  /** The split form never overflows and equals the plain floor on every
      non-negative `i128` and every percentage up to 100%. */
  lemma SplitBpsExact(x: nat, bps: nat)
    requires x <= I128_MAX && bps <= BPS
    ensures SplitBps(x, bps) == Ok(BpsOf(x, bps))
  {
    var q, r := x / BPS, x % BPS;
    var whole, scaled := q * bps, r * bps;
    Recombine(x, bps, q, r, whole, scaled);
    BpsAtMostWhole(x, bps);
    CheckedMulFits(q, bps, whole);
    CheckedMulFits(r, bps, scaled);
    SplitBpsSteps(x, bps, q, r, whole, scaled);
  }

  /** The checked steps, once their operands are in range. */
  lemma SplitBpsSteps(x: nat, bps: nat, q: nat, r: nat, whole: nat, scaled: nat)
    requires x <= I128_MAX && q == x / BPS && r == x % BPS
    requires CheckedMul(q, bps) == Ok(whole) && CheckedMul(r, bps) == Ok(scaled)
    requires scaled <= BPS * BPS && whole + scaled / BPS <= I128_MAX
    ensures SplitBps(x, bps) == Ok(whole + scaled / BPS)
  {
  }

  /** `calculate_budget_rollover`: basis points of the unspent allowance, clamped
      to the cap when there is one (0 means uncapped). */
  function BudgetRollover(unspent: int, rolloverBps: int, cap: int): Result<int> {
    if unspent < 0 || rolloverBps < 0 || cap < 0 then Err(InvalidAmount)
    else if rolloverBps > BPS then Err(InvalidInput)
    else if unspent == 0 || rolloverBps == 0 then Ok(0)
    else
      var credit :- SplitBps(unspent, rolloverBps);
      Ok(if cap > 0 && credit > cap then cap else credit)
  }

  /** Clamp to a cap where 0 means "no cap". */
  function Capped(x: int, cap: int): int { if cap != 0 && x > cap then cap else x }

  /** On every legal input the rollover is the capped floor and never an error. */
  lemma BudgetRolloverExact(unspent: nat, rolloverBps: nat, cap: nat)
    requires unspent <= I128_MAX && rolloverBps <= BPS
    ensures BudgetRollover(unspent, rolloverBps, cap) == Ok(Capped(BpsOf(unspent, rolloverBps), cap))
  {
    SplitBpsExact(unspent, rolloverBps);
    if unspent == 0 || rolloverBps == 0 {
      assert unspent * rolloverBps == 0;
    }
  }

  /** More unspent allowance never rolls over to less. */
  lemma BudgetRolloverMonotone(x: nat, y: nat, rolloverBps: nat, cap: nat)
    requires x <= y <= I128_MAX && rolloverBps <= BPS
    ensures BudgetRollover(x, rolloverBps, cap).Ok? && BudgetRollover(y, rolloverBps, cap).Ok?
    ensures BudgetRollover(x, rolloverBps, cap).value <= BudgetRollover(y, rolloverBps, cap).value
  {
    BudgetRolloverExact(x, rolloverBps, cap);
    BudgetRolloverExact(y, rolloverBps, cap);
    BpsMonotone(x, y, rolloverBps);
  }
}
