/** Fixed-width unsigned arithmetic, and the few facts about division the fee rules need. */
module MachineInts {

  const U64_MAX: nat := 0xFFFF_FFFF_FFFF_FFFF
  const TWO_64: nat := 0x1_0000_0000_0000_0000
  const TWO_128: nat := 0x1_0000_0000_0000_0000_0000_0000_0000_0000

  type U64 = n: nat | n < 0x1_0000_0000_0000_0000

  const U256_MAX: nat := 0xFFFF_FFFF_FFFF_FFFF_FFFF_FFFF_FFFF_FFFF_FFFF_FFFF_FFFF_FFFF_FFFF_FFFF_FFFF_FFFF

  type U256 = n: nat | n <= 0xFFFF_FFFF_FFFF_FFFF_FFFF_FFFF_FFFF_FFFF_FFFF_FFFF_FFFF_FFFF_FFFF_FFFF_FFFF_FFFF

  datatype Option<+T> = None | Some(value: T)
  datatype Result<+T, +E> = Ok(value: T) | Err(error: E)

  function Min(a: int, b: int): int { if a <= b then a else b }

  function Max(a: int, b: int): int { if a <= b then b else a }

  /** `u64::saturating_add`. */
  function SatAdd(a: nat, b: nat): U64 { if a + b <= U64_MAX then a + b else U64_MAX }

  /** `saturating_sub`: stops at zero. */
  function SatSub(a: nat, b: nat): nat { if a <= b then 0 else a - b }

  /** Release-mode `+` on `u64`. */
  function WrapAdd(a: U64, b: U64): U64 {
    if a + b < 0x1_0000_0000_0000_0000 then a + b else a + b - 0x1_0000_0000_0000_0000
  }

  /** `as u64` on a wider unsigned value: keeps the low 64 bits. */
  function TruncU64(a: nat): U64 { a % 0x1_0000_0000_0000_0000 }

  /** Release-mode `*` on `u128`. */
  function WrapMul128(a: nat, b: nat): nat {
    (a * b) % 0x1_0000_0000_0000_0000_0000_0000_0000_0000
  }

  function Clamp(x: int, lo: int, hi: int): int
    requires lo <= hi
  {
    if x < lo then lo else if hi < x then hi else x
  }

  lemma MulMono(a: nat, b: nat, c: nat)
    requires a <= b
    ensures a * c <= b * c
  {
  }

  /** Floor division, by counting; by `QuotIsDiv` it is the machine's operator. */
  function Quot(x: nat, d: nat): nat
    requires 0 < d
  {
    if x < d then 0 else 1 + Quot(x - d, d)
  }

  lemma {:induction false} QuotBounds(x: nat, d: nat)
    requires 0 < d
    ensures Quot(x, d) * d <= x < Quot(x, d) * d + d
  {
    if d <= x {
      QuotBounds(x - d, d);
      assert (1 + Quot(x - d, d)) * d == d + Quot(x - d, d) * d;
    }
  }

  /** The quotient is determined by its bounds. */
  lemma QuotUnique(x: nat, d: nat, q: nat)
    requires 0 < d && q * d <= x < q * d + d
    ensures Quot(x, d) == q
  {
    QuotBounds(x, d);
    var r := Quot(x, d);
    assert r <= q by {
      if q < r { MulMono(q + 1, r, d); }
    }
    if r < q { MulMono(r + 1, q, d); }
  }

  lemma QuotAtLeast(x: nat, d: nat, q: nat)
    requires 0 < d && q * d <= x
    ensures q <= Quot(x, d)
  {
    QuotBounds(x, d);
    if Quot(x, d) < q { MulMono(Quot(x, d) + 1, q, d); }
  }

  lemma {:induction false} QuotMono(x: nat, y: nat, d: nat)
    requires 0 < d && x <= y
    ensures Quot(x, d) <= Quot(y, d)
  {
    if d <= x { QuotMono(x - d, y - d, d); }
  }

  lemma {:induction false} QuotAddMultiple(x: nat, k: nat, d: nat)
    requires 0 < d
    ensures Quot(x + k * d, d) == Quot(x, d) + k
  {
    if k > 0 {
      assert k * d == (k - 1) * d + d;
      QuotAddMultiple(x, k - 1, d);
    }
  }

  lemma QuotAtMostSelf(x: nat, d: nat)
    requires 0 < d
    ensures Quot(x, d) <= x
  {
    if d <= x { QuotAtMostSelf(x - d, d); }
  }

  lemma QuotIsDiv(x: nat, d: nat)
    requires 0 < d
    ensures Quot(x, d) == x / d
  {
    var q := x / d;
    assert q * d <= x < q * d + d;
    QuotUnique(x, d, q);
  }
}
