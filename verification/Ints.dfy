/** The fixed-width unsigned integers of the source, with its saturating and
    checked operations written out over the unbounded integers. */
module Ints {
  const U64_MAX: nat := 0xFFFF_FFFF_FFFF_FFFF
  const U128_MAX: nat := 0xFFFF_FFFF_FFFF_FFFF_FFFF_FFFF_FFFF_FFFF

  type u64 = n: nat | n <= U64_MAX
  type u128 = n: nat | n <= U128_MAX

  function Min(a: nat, b: nat): nat {
    if a <= b then a else b
  }

  function Max(a: nat, b: nat): nat {
    if a <= b then b else a
  }

  /** `u64::saturating_add` */
  function SaturatingAdd64(a: u64, b: u64): u64 {
    if a + b <= U64_MAX then a + b else U64_MAX
  }

  /** The product, by repeated addition. */
  function Times(k: nat, d: nat): nat {
    if k == 0 then 0 else d + Times(k - 1, d)
  }

  /** The quotient rounded down, by repeated subtraction. */
  function Quotient(a: nat, d: nat): (q: nat)
    requires d > 0
    ensures q <= a
  {
    if a < d then 0 else 1 + Quotient(a - d, d)
  }

  lemma {:induction false} TimesIsProduct(k: nat, d: nat)
    ensures Times(k, d) == k * d
  {
    if k > 0 {
      TimesIsProduct(k - 1, d);
      assert (k - 1) * d == k * d - d;
    }
  }

  lemma {:induction false} TimesSum(j: nat, k: nat, d: nat)
    ensures Times(j + k, d) == Times(j, d) + Times(k, d)
  {
    if j > 0 { TimesSum(j - 1, k, d); }
  }

  lemma TimesMonotone(j: nat, k: nat, d: nat)
    requires j <= k
    ensures Times(j, d) <= Times(k, d)
  {
    TimesSum(j, k - j, d);
  }

  lemma {:induction false} TimesAtLeast(k: nat, d: nat)
    requires d > 0
    ensures k <= Times(k, d)
  {
    if k > 0 { TimesAtLeast(k - 1, d); }
  }

  lemma {:induction false} QuotientBounds(a: nat, d: nat)
    requires d > 0
    ensures Times(Quotient(a, d), d) <= a < Times(Quotient(a, d), d) + d
  {
    if a >= d { QuotientBounds(a - d, d); }
  }

  /** The quotient is the only number with these bounds. */
  lemma {:induction false} QuotientUnique(a: nat, d: nat, k: nat)
    requires d > 0 && Times(k, d) <= a < Times(k, d) + d
    ensures k == Quotient(a, d)
  {
    if k > 0 { QuotientUnique(a - d, d, k - 1); }
  }

  lemma QuotientIsDivision(a: nat, d: nat)
    requires d > 0
    ensures Quotient(a, d) == a / d
  {
    TimesIsProduct(a / d, d);
    assert a == (a / d) * d + a % d;
    QuotientUnique(a, d, a / d);
  }

  lemma QuotientMonotone(a: nat, b: nat, d: nat)
    requires d > 0 && a <= b
    ensures Quotient(a, d) <= Quotient(b, d)
  {
    QuotientBounds(a, d);
    QuotientBounds(b, d);
    if Quotient(b, d) < Quotient(a, d) {
      TimesMonotone(Quotient(b, d) + 1, Quotient(a, d), d);
      assert false;
    }
  }

  /** `u64::saturating_mul` */
  function SaturatingMul64(a: u64, b: u64): u64 {
    if Times(a, b) <= U64_MAX then Times(a, b) else U64_MAX
  }

  /** `saturating_sub`, the same at every width */
  function SaturatingSub(a: nat, b: nat): nat {
    if a <= b then 0 else a - b
  }

  /** `Uint128::saturating_add` */
  function SaturatingAdd128(a: u128, b: u128): u128 {
    if a + b <= U128_MAX then a + b else U128_MAX
  }
}

/** The conventional option and result types. */
module Outcomes {
  datatype Option<+T> = None | Some(value: T) {
    function GetOr(default: T): T {
      if Some? then value else default
    }
  }

  datatype Result<+T, +E> = Ok(value: T) | Err(error: E)
}
