/**
 The L2 base-fee rule: EIP-1559 on the part of the fee above a configurable overhead, then a
 fork-dependent clamp. The operation is modelled twice: `CalcNextBaseFee` with the machine's
 wrapping operators, and `ExactNextBaseFee` over unbounded integers.
 */
module BaseFee {
  import opened MachineInts
  import GasLimit

  const MAX_L2_BASE_FEE: U64 := 420_000_000_000_000
  const PRE_TSUKI_V2_MAX_L2_BASE_FEE: U64 := 10_000_000_000
  const DEFAULT_BASE_FEE_OVERHEAD: U64 := 15_680_000

  datatype BaseFeeParams = BaseFeeParams(denominator: nat, elasticity: nat)

  const FEYNMAN_PARAMS := BaseFeeParams(8, 2)
  const TSUKI_PARAMS := BaseFeeParams(48, 10)

  /** The one activation time the rule depends on. */
  datatype ChainSpec = ChainSpec(tsukiV2: Option<U64>)
  {
    predicate IsTsukiV2ActiveAt(timestamp: U64) {
      tsukiV2.Some? && tsukiV2.value <= timestamp
    }

    function ParamsAt(timestamp: U64): BaseFeeParams {
      if IsTsukiV2ActiveAt(timestamp) then TSUKI_PARAMS else FEYNMAN_PARAMS
    }

    function CapAt(timestamp: U64): U64 {
      if IsTsukiV2ActiveAt(timestamp) then MAX_L2_BASE_FEE else PRE_TSUKI_V2_MAX_L2_BASE_FEE
    }
  }

  datatype Parent = Parent(baseFee: U64, gasUsed: U64, gasLimit: U64)
  {
    /** What header validation guarantees of a parent: the fee cap, the gas bound, the minimum limit. */
    predicate Accepted() {
      baseFee <= MAX_L2_BASE_FEE && gasUsed <= gasLimit && GasLimit.MINIMUM_GAS_LIMIT <= gasLimit
    }
  }

  /** The system-config slot is a 256-bit word: zero means the default, larger than 64 bits saturates. */
  function BaseFeeOverhead(slot: nat): U64 {
    if slot == 0 then DEFAULT_BASE_FEE_OVERHEAD else Min(slot, U64_MAX)
  }

  predicate ValidParams(p: BaseFeeParams) {
    2 <= p.denominator <= 48 && 2 <= p.elasticity <= 10
  }

  /** The gas target: the limit divided by the elasticity. */
  function Target(gasLimit: nat, p: BaseFeeParams): nat
    requires ValidParams(p)
  {
    Quot(gasLimit, p.elasticity)
  }

  /** The rule's divisor: target times the change denominator. */
  function Scale(gasLimit: nat, p: BaseFeeParams): nat
    requires ValidParams(p)
  {
    Target(gasLimit, p) * p.denominator
  }

  /** The change of the EIP-1559 fee away from target, before the minimum increase of one. */
  function ExactDelta(baseFee: nat, distance: nat, scale: nat): nat
    requires 0 < scale
  {
    Quot(baseFee * distance, scale)
  }

  /** EIP-1559's next base fee over unbounded integers. */
  function ExactNextBaseFee(gasUsed: nat, target: nat, baseFee: nat, scale: nat): nat
    requires 0 < scale
  {
    if gasUsed == target then baseFee
    else if gasUsed > target then baseFee + Max(1, ExactDelta(baseFee, gasUsed - target, scale))
    else SatSub(baseFee, ExactDelta(baseFee, target - gasUsed, scale))
  }

  /** `(base_fee as u128 * distance as u128 / scale) as u64`. */
  function MachineDelta(baseFee: U64, distance: nat, scale: nat): U64
    requires 0 < scale
  {
    TruncU64(WrapMul128(baseFee, distance) / scale)
  }

  /** The same rule with the wrapping and truncating operators of the `u64`/`u128` code. */
  function CalcNextBaseFee(gasUsed: U64, target: U64, baseFee: U64, scale: nat): U64
    requires 0 < scale
  {
    if gasUsed == target then baseFee
    else if gasUsed > target then WrapAdd(baseFee, Max(1, MachineDelta(baseFee, gasUsed - target, scale)))
    else SatSub(baseFee, MachineDelta(baseFee, target - gasUsed, scale))
  }

  /** `next_block_base_fee_with_overhead`. */
  function NextBaseFee(spec: ChainSpec, parent: Parent, overhead: U64, timestamp: U64): U64
    requires parent.Accepted()
  {
    var p := spec.ParamsAt(timestamp);
    ScaleFits(parent, p);
    var excess := SatSub(parent.baseFee, overhead);
    var target := Target(parent.gasLimit, p);
    var next := CalcNextBaseFee(parent.gasUsed, target, excess, WrapMul128(target, p.denominator));
    Min(SatAdd(next, overhead), spec.CapAt(timestamp))
  }

  /** `predict_next_block_base_fee`: the earliest timestamp a child can have. */
  function PredictNextBaseFee(spec: ChainSpec, parent: Parent, overhead: U64, parentTimestamp: U64): U64
    requires parent.Accepted()
  {
    NextBaseFee(spec, parent, overhead, SatAdd(parentTimestamp, 1))
  }

  /** For an accepted parent the target is at least 500 and the divisor of the rule is exact. */
  lemma ScaleFits(parent: Parent, p: BaseFeeParams)
    requires parent.Accepted() && ValidParams(p)
    ensures 500 <= Target(parent.gasLimit, p) <= parent.gasLimit
    ensures Target(parent.gasLimit, p) <= Scale(parent.gasLimit, p) < TWO_128
    ensures WrapMul128(Target(parent.gasLimit, p), p.denominator) == Scale(parent.gasLimit, p)
  {
    var t := Target(parent.gasLimit, p);
    QuotAtLeast(parent.gasLimit, p.elasticity, 500);
    QuotAtMostSelf(parent.gasLimit, p.elasticity);
    MulMono(p.denominator, 48, t);
    MulMono(1, p.denominator, t);
  }

  lemma ExpandShare(e: nat, t: nat)
    requires 1 <= e
    ensures (e - 1) * (t + 1) == t * e - t + e - 1
  {
  }

  /** The gas above target is bounded by the elasticity. */
  lemma GasAboveTarget(gasUsed: nat, gasLimit: nat, p: BaseFeeParams)
    requires ValidParams(p) && gasUsed <= gasLimit
    ensures SatSub(gasUsed, Target(gasLimit, p)) <= UpShare(gasLimit, p)
  {
    QuotBounds(gasLimit, p.elasticity);
    ExpandShare(p.elasticity, Target(gasLimit, p));
  }

  /** The most gas a block can use above target: (E - 1) * (target + 1). */
  function UpShare(gasLimit: nat, p: BaseFeeParams): nat
    requires ValidParams(p)
  {
    (p.elasticity - 1) * (Target(gasLimit, p) + 1)
  }

  /** A whole target of distance moves the fee by exactly `baseFee / d`. */
  lemma FullShare(baseFee: nat, target: nat, d: nat)
    requires 0 < d && 0 < target * d && 0 < target
    ensures ExactDelta(baseFee, target, target * d) == Quot(baseFee, d)
  {
    var q := Quot(baseFee, d);
    QuotBounds(baseFee, d);
    ScaleBounds(q, d, baseFee, target);
    QuotUnique(baseFee * target, target * d, q);
  }

  lemma ScaleBounds(q: nat, d: nat, x: nat, t: nat)
    requires q * d <= x < q * d + d && 0 < t
    ensures q * (t * d) <= x * t < q * (t * d) + t * d
  {
    MulMono(q * d, x, t);
    assert (q * d) * t == q * (t * d);
    MulMono(x + 1, q * d + d, t);
    assert (q * d + d) * t == q * (t * d) + t * d;
    assert (x + 1) * t == x * t + t;
  }

  lemma DeltaAtMostShare(baseFee: nat, distance: nat, target: nat, d: nat)
    requires 0 < d && 0 < target * d && 0 < target && distance <= target
    ensures ExactDelta(baseFee, distance, target * d) <= Quot(baseFee, d) <= baseFee
  {
    MulMono(distance, target, baseFee);
    QuotMono(baseFee * distance, baseFee * target, target * d);
    FullShare(baseFee, target, d);
    QuotAtMostSelf(baseFee, d);
  }

  lemma DeltaMonotoneInDistance(baseFee: nat, near: nat, far: nat, scale: nat)
    requires 0 < scale && near <= far
    ensures ExactDelta(baseFee, near, scale) <= ExactDelta(baseFee, far, scale)
  {
    MulMono(near, far, baseFee);
    QuotMono(baseFee * near, baseFee * far, scale);
  }

  /** A move over a distance inside `share`, scaled up, is at most that share of the excess. */
  lemma DeltaUpBound(baseFee: nat, distance: nat, share: nat, scale: nat)
    requires 0 < scale && distance <= share
    ensures ExactDelta(baseFee, distance, scale) * scale <= baseFee * share
  {
    MulMono(distance, share, baseFee);
    QuotBounds(baseFee * distance, scale);
  }

  lemma DeltaBelowTenfold(excess: nat, delta: nat, scale: nat, share: nat)
    requires delta * scale <= excess * share && share <= 9 * scale && 0 < scale
    ensures delta <= 9 * excess
  {
    MulMono(share, 9 * scale, excess);
    if 9 * excess < delta {
      MulMono(9 * excess + 1, delta, scale);
    }
  }

  lemma ShareAtMostNineScales(gasLimit: nat, p: BaseFeeParams)
    requires ValidParams(p) && 1 <= Target(gasLimit, p)
    ensures UpShare(gasLimit, p) <= 9 * Scale(gasLimit, p)
  {
    MulMono(p.elasticity - 1, 9, Target(gasLimit, p) + 1);
    MulMono(2, p.denominator, Target(gasLimit, p));
  }

  /** How far the parent's gas used is from target. */
  function Distance(parent: Parent, p: BaseFeeParams): nat
    requires ValidParams(p)
  {
    var t := Target(parent.gasLimit, p);
    if t <= parent.gasUsed then parent.gasUsed - t else t - parent.gasUsed
  }

  lemma DistanceFits(parent: Parent, excess: U64, p: BaseFeeParams)
    requires parent.Accepted() && ValidParams(p) && excess <= MAX_L2_BASE_FEE
    ensures Distance(parent, p) <= U64_MAX && excess * Distance(parent, p) < TWO_128
  {
    ScaleFits(parent, p);
    MulMono(Distance(parent, p), U64_MAX, excess);
  }

  lemma DeltaFits(parent: Parent, excess: U64, p: BaseFeeParams)
    requires parent.Accepted() && ValidParams(p)
    ensures 0 < Scale(parent.gasLimit, p)
    ensures ExactDelta(excess, Distance(parent, p), Scale(parent.gasLimit, p)) <= 9 * excess
  {
    ScaleFits(parent, p);
    var t := Target(parent.gasLimit, p);
    if t < parent.gasUsed {
      GasAboveTarget(parent.gasUsed, parent.gasLimit, p);
      DeltaUpBound(excess, parent.gasUsed - t, UpShare(parent.gasLimit, p), Scale(parent.gasLimit, p));
      ShareAtMostNineScales(parent.gasLimit, p);
      DeltaBelowTenfold(excess, ExactDelta(excess, parent.gasUsed - t, Scale(parent.gasLimit, p)),
                        Scale(parent.gasLimit, p), UpShare(parent.gasLimit, p));
    } else {
      DeltaAtMostShare(excess, t - parent.gasUsed, t, p.denominator);
    }
  }

  /** Below the type bounds the machine's delta is the exact one. */
  lemma MachineDeltaExact(baseFee: U64, distance: nat, scale: nat)
    requires 0 < scale && baseFee * distance < TWO_128 && ExactDelta(baseFee, distance, scale) < TWO_64
    ensures MachineDelta(baseFee, distance, scale) == ExactDelta(baseFee, distance, scale)
  {
    var x := baseFee * distance;
    assert WrapMul128(baseFee, distance) == x;
    QuotIsDiv(x, scale);
  }

  /** No product, quotient, cast or sum of the rule leaves its machine type. */
  lemma NextBaseFeeNeverOverflows(parent: Parent, excess: U64, p: BaseFeeParams)
    requires parent.Accepted() && ValidParams(p) && excess <= MAX_L2_BASE_FEE
    ensures Target(parent.gasLimit, p) < TWO_64 && 0 < Scale(parent.gasLimit, p) < TWO_128
    ensures excess * Distance(parent, p) < TWO_128
    ensures excess + Max(1, ExactDelta(excess, Distance(parent, p), Scale(parent.gasLimit, p))) < TWO_64
    ensures CalcNextBaseFee(parent.gasUsed, Target(parent.gasLimit, p), excess, Scale(parent.gasLimit, p))
            == ExactNextBaseFee(parent.gasUsed, Target(parent.gasLimit, p), excess, Scale(parent.gasLimit, p))
  {
    ScaleFits(parent, p);
    DistanceFits(parent, excess, p);
    DeltaFits(parent, excess, p);
    MachineDeltaExact(excess, Distance(parent, p), Scale(parent.gasLimit, p));
  }

  /**
   The excess falls by at most 1/D and rises by at most one wei or the elasticity-derived share,
   whichever is more; it falls only under target and rises only, and always, above it.
   */
  lemma ExcessMoveBounds(parent: Parent, excess: U64, p: BaseFeeParams)
    requires parent.Accepted() && ValidParams(p) && excess <= MAX_L2_BASE_FEE
    ensures 0 < Scale(parent.gasLimit, p)
    ensures var scale := Scale(parent.gasLimit, p);
            var next := ExactNextBaseFee(parent.gasUsed, Target(parent.gasLimit, p), excess, scale);
            && (next < excess ==> parent.gasUsed < Target(parent.gasLimit, p))
            && (excess < next <==> Target(parent.gasLimit, p) < parent.gasUsed)
            && excess - next <= Quot(excess, p.denominator)
            && (next <= excess + 1 || (next - excess) * scale <= excess * UpShare(parent.gasLimit, p))
  {
    ScaleFits(parent, p);
    var t := Target(parent.gasLimit, p);
    if t < parent.gasUsed {
      GasAboveTarget(parent.gasUsed, parent.gasLimit, p);
      DeltaUpBound(excess, parent.gasUsed - t, UpShare(parent.gasLimit, p), Scale(parent.gasLimit, p));
    } else {
      DeltaAtMostShare(excess, t - parent.gasUsed, t, p.denominator);
    }
  }

  /**
   The fee of every child of an accepted parent is the exact rule's, capped, and never below the
   capped overhead.
   */
  lemma NextBaseFeeBounds(spec: ChainSpec, parent: Parent, overhead: U64, timestamp: U64)
    requires parent.Accepted()
    ensures var cap := spec.CapAt(timestamp);
            Min(overhead, cap) <= NextBaseFee(spec, parent, overhead, timestamp) <= cap <= MAX_L2_BASE_FEE
    ensures var p := spec.ParamsAt(timestamp);
            && 0 < Scale(parent.gasLimit, p)
            && NextBaseFee(spec, parent, overhead, timestamp)
               == Min(ExactNextBaseFee(parent.gasUsed, Target(parent.gasLimit, p),
                                       SatSub(parent.baseFee, overhead), Scale(parent.gasLimit, p)) + overhead,
                      spec.CapAt(timestamp))
  {
    ScaleFits(parent, spec.ParamsAt(timestamp));
    NextBaseFeeNeverOverflows(parent, SatSub(parent.baseFee, overhead), spec.ParamsAt(timestamp));
  }

  // ----- The rule in plain arithmetic --------------------------------------------------------

  /** EIP-1559 on an excess: down by its share of the distance to target, or up by at least one. */
  function PlainNext(used: nat, target: nat, excess: nat, scale: nat): nat
    requires 0 < scale
  {
    if used <= target then Max(0, excess - excess * (target - used) / scale)
    else excess + Max(1, excess * (used - target) / scale)
  }

  /** The rule with the given denominator and elasticity on the part above `overhead`, then the cap. */
  function PlainFee(parent: Parent, overhead: nat, denominator: nat, elasticity: nat, cap: nat): nat
    requires 0 < denominator && 0 < elasticity <= parent.gasLimit
  {
    var target := parent.gasLimit / elasticity;
    PositiveTarget(parent.gasLimit, elasticity, denominator);
    Min(PlainNext(parent.gasUsed, target, Max(0, parent.baseFee - overhead), target * denominator) + overhead, cap)
  }

  lemma PositiveTarget(limit: nat, elasticity: nat, denominator: nat)
    requires 0 < denominator && 0 < elasticity <= limit
    ensures 0 < limit / elasticity && 0 < limit / elasticity * denominator
  {
    QuotAtLeast(limit, elasticity, 1);
    QuotIsDiv(limit, elasticity);
    MulMono(1, denominator, limit / elasticity);
  }

  lemma ExactNextIsPlain(used: nat, target: nat, excess: nat, scale: nat)
    requires 0 < scale
    ensures ExactNextBaseFee(used, target, excess, scale) == PlainNext(used, target, excess, scale)
  {
    if used < target {
      QuotIsDiv(excess * (target - used), scale);
    } else if used == target {
      NothingTimes(excess, scale);
    } else {
      QuotIsDiv(excess * (used - target), scale);
    }
  }

  lemma NothingTimes(excess: nat, scale: nat)
    requires 0 < scale
    ensures excess * 0 / scale == 0
  {
  }

  lemma ExactIsPlain(parent: Parent, p: BaseFeeParams, overhead: nat, cap: nat)
    requires parent.Accepted() && ValidParams(p)
    ensures 0 < Scale(parent.gasLimit, p) && p.elasticity <= parent.gasLimit
    ensures Min(ExactNextBaseFee(parent.gasUsed, Target(parent.gasLimit, p), SatSub(parent.baseFee, overhead),
                                 Scale(parent.gasLimit, p)) + overhead, cap)
            == PlainFee(parent, overhead, p.denominator, p.elasticity, cap)
  {
    ScaleFits(parent, p);
    QuotIsDiv(parent.gasLimit, p.elasticity);
    ExactNextIsPlain(parent.gasUsed, Target(parent.gasLimit, p), SatSub(parent.baseFee, overhead),
                     Scale(parent.gasLimit, p));
  }

  /** Which parameters and which cap apply: those of TsukiV2 exactly from its activation on. */
  lemma FeeByFork(spec: ChainSpec, parent: Parent, overhead: U64, timestamp: U64)
    requires parent.Accepted()
    ensures NextBaseFee(spec, parent, overhead, timestamp)
            == match spec.tsukiV2
               case None => PlainFee(parent, overhead, 8, 2, 10_000_000_000)
               case Some(activation) =>
                 if timestamp < activation then PlainFee(parent, overhead, 8, 2, 10_000_000_000)
                 else PlainFee(parent, overhead, 48, 10, 420_000_000_000_000)
  {
    NextBaseFeeBounds(spec, parent, overhead, timestamp);
    ExactIsPlain(parent, spec.ParamsAt(timestamp), overhead, spec.CapAt(timestamp));
  }

  lemma ExactMonotoneInGasUsed(g0: nat, g1: nat, t: nat, baseFee: nat, scale: nat)
    requires 0 < scale && g0 <= g1
    ensures ExactNextBaseFee(g0, t, baseFee, scale) <= ExactNextBaseFee(g1, t, baseFee, scale)
  {
    if t < g0 {
      DeltaMonotoneInDistance(baseFee, g0 - t, g1 - t, scale);
    } else if g1 < t {
      DeltaMonotoneInDistance(baseFee, t - g1, t - g0, scale);
    }
  }

  /** With the distance inside the scale, a dearer base keeps at least as much. */
  lemma KeptMonotone(b0: nat, b1: nat, distance: nat, scale: nat)
    requires 0 < scale && distance <= scale && b0 <= b1
    ensures ExactDelta(b1, distance, scale) <= ExactDelta(b0, distance, scale) + (b1 - b0)
  {
    var gap := b1 - b0;
    assert b1 * distance == b0 * distance + gap * distance;
    MulMono(distance, scale, gap);
    QuotMono(b1 * distance, b0 * distance + gap * scale, scale);
    QuotAddMultiple(b0 * distance, gap, scale);
  }

  lemma ExactMonotoneInBaseFee(g: nat, t: nat, b0: nat, b1: nat, scale: nat)
    requires 0 < scale && t <= scale && b0 <= b1
    ensures ExactNextBaseFee(g, t, b0, scale) <= ExactNextBaseFee(g, t, b1, scale)
  {
    if t < g {
      MulMono(b0, b1, g - t);
      QuotMono(b0 * (g - t), b1 * (g - t), scale);
    } else if g < t {
      KeptMonotone(b0, b1, t - g, scale);
    }
  }

  /** A fuller parent, or a dearer one, never makes its child cheaper. */
  lemma NextBaseFeeMonotone(spec: ChainSpec, a: Parent, b: Parent, overhead: U64, timestamp: U64)
    requires a.Accepted() && b.Accepted() && a.gasLimit == b.gasLimit
    requires a.gasUsed <= b.gasUsed && a.baseFee <= b.baseFee
    ensures NextBaseFee(spec, a, overhead, timestamp) <= NextBaseFee(spec, b, overhead, timestamp)
  {
    var p := spec.ParamsAt(timestamp);
    var ea, eb := SatSub(a.baseFee, overhead), SatSub(b.baseFee, overhead);
    NextBaseFeeBounds(spec, a, overhead, timestamp);
    NextBaseFeeBounds(spec, b, overhead, timestamp);
    ScaleFits(a, p);
    ExactMonotoneInGasUsed(a.gasUsed, b.gasUsed, Target(a.gasLimit, p), ea, Scale(a.gasLimit, p));
    ExactMonotoneInBaseFee(b.gasUsed, Target(a.gasLimit, p), ea, eb, Scale(a.gasLimit, p));
  }

  // ----- Idle runs -------------------------------------------------------------------------

  /** One empty block, as the rule sees it. */
  function IdleStep(fee: nat, overhead: nat, cap: nat, d: nat): nat
    requires 0 < d
  {
    var excess := SatSub(fee, overhead);
    Min(SatSub(excess, Quot(excess, d)) + overhead, cap)
  }

  lemma EmptyBlockIsIdleStep(spec: ChainSpec, parent: Parent, overhead: U64, timestamp: U64)
    requires parent.Accepted() && parent.gasUsed == 0
    ensures NextBaseFee(spec, parent, overhead, timestamp)
            == IdleStep(parent.baseFee, overhead, spec.CapAt(timestamp), spec.ParamsAt(timestamp).denominator)
  {
    var p := spec.ParamsAt(timestamp);
    ScaleFits(parent, p);
    NextBaseFeeBounds(spec, parent, overhead, timestamp);
    FullShare(SatSub(parent.baseFee, overhead), Target(parent.gasLimit, p), p.denominator);
  }

  datatype EmptyBlock = EmptyBlock(gasLimit: U64, timestamp: U64)

  /** The fees of a chain of empty blocks on top of a block with base fee `fee` and no gas used. */
  function IdleRun(spec: ChainSpec, fee: U64, parentLimit: U64, overhead: U64, blocks: seq<EmptyBlock>): U64
    requires fee <= MAX_L2_BASE_FEE && GasLimit.MINIMUM_GAS_LIMIT <= parentLimit
    requires forall b <- blocks :: GasLimit.MINIMUM_GAS_LIMIT <= b.gasLimit
    decreases |blocks|
  {
    if blocks == [] then fee
    else
      var next := NextBaseFee(spec, Parent(fee, 0, parentLimit), overhead, blocks[0].timestamp);
      NextBaseFeeBounds(spec, Parent(fee, 0, parentLimit), overhead, blocks[0].timestamp);
      IdleRun(spec, next, blocks[0].gasLimit, overhead, blocks[1..])
  }

  function Iterate(fee: nat, overhead: nat, cap: nat, d: nat, n: nat): nat
    requires 0 < d
    decreases n
  {
    if n == 0 then fee else Iterate(IdleStep(fee, overhead, cap, d), overhead, cap, d, n - 1)
  }

  lemma {:induction false} IdleRunIterates(spec: ChainSpec, fee: U64, parentLimit: U64, overhead: U64,
                                           blocks: seq<EmptyBlock>, cap: U64, p: BaseFeeParams)
    requires fee <= MAX_L2_BASE_FEE && GasLimit.MINIMUM_GAS_LIMIT <= parentLimit && ValidParams(p)
    requires forall b <- blocks :: GasLimit.MINIMUM_GAS_LIMIT <= b.gasLimit
    requires forall b <- blocks :: spec.CapAt(b.timestamp) == cap && spec.ParamsAt(b.timestamp) == p
    ensures IdleRun(spec, fee, parentLimit, overhead, blocks)
            == Iterate(fee, overhead, cap, p.denominator, |blocks|)
    decreases |blocks|
  {
    if blocks == [] {
    } else {
      var parent := Parent(fee, 0, parentLimit);
      NextBaseFeeBounds(spec, parent, overhead, blocks[0].timestamp);
      EmptyBlockIsIdleStep(spec, parent, overhead, blocks[0].timestamp);
      IdleRunIterates(spec, NextBaseFee(spec, parent, overhead, blocks[0].timestamp),
                      blocks[0].gasLimit, overhead, blocks[1..], cap, p);
    }
  }

  function Pow(b: nat, n: nat): nat { if n == 0 then 1 else b * Pow(b, n - 1) }

  /**
   One empty block on an excess of at least D: it falls strictly, stays at D - 1 or more, and the
   distance to D - 1 shrinks by the factor (D - 1) / D.
   */
  lemma IdleShrinks(excess: nat, d: nat)
    requires 2 <= d
    ensures d <= excess ==>
              d - 1 <= excess - Quot(excess, d) < excess
              && d * (excess - Quot(excess, d) - (d - 1)) <= (d - 1) * (excess - (d - 1))
  {
    QuotBounds(excess, d);
    if d <= excess {
      ShrinkByQuotient(excess, d, Quot(excess, d));
    }
  }

  lemma ShrinkByQuotient(e: nat, d: nat, q: nat)
    requires 2 <= d <= e && q * d <= e < q * d + d && 1 <= q
    ensures d - 1 <= e - q < e
    ensures d * (e - q - (d - 1)) <= (d - 1) * (e - (d - 1))
  {
    assert q * d == q * (d - 1) + q;
    MulMono(1, q, d - 1);
    assert d * (e - q - (d - 1)) == d * e - q * d - d * (d - 1);
    assert (d - 1) * (e - (d - 1)) == d * e - e - (d - 1) * (d - 1);
    assert d * (d - 1) == (d - 1) * (d - 1) + (d - 1);
  }

  /** Under the cap, `n` idle blocks leave an excess whose distance to D - 1 decayed geometrically. */
  lemma {:induction false} IdleDecay(fee: nat, overhead: nat, cap: nat, d: nat, n: nat)
    requires 2 <= d && overhead + (d - 1) <= fee <= cap
    ensures overhead + (d - 1) <= Iterate(fee, overhead, cap, d, n) <= cap
    ensures Pow(d, n) * (Iterate(fee, overhead, cap, d, n) - overhead - (d - 1))
            <= Pow(d - 1, n) * (fee - overhead - (d - 1))
    decreases n
  {
    if n > 0 {
      var next := IdleStep(fee, overhead, cap, d);
      var x := fee - overhead - (d - 1);
      IdleShrinks(fee - overhead, d);
      assert overhead + (d - 1) <= next <= fee;
      var y := next - overhead - (d - 1);
      assert d * y <= (d - 1) * x;
      IdleDecay(next, overhead, cap, d, n - 1);
      var z := Iterate(next, overhead, cap, d, n - 1) - overhead - (d - 1);
      ChainDecay(Pow(d, n - 1), Pow(d - 1, n - 1), d, d - 1, x, y, z);
    }
  }

  lemma ChainDecay(p: nat, q: nat, a: nat, b: nat, x: nat, y: nat, z: nat)
    requires p * z <= q * y && a * y <= b * x
    ensures (a * p) * z <= (b * q) * x
  {
    calc {
      (a * p) * z;
      a * (p * z);
    <= { MulMono(p * z, q * y, a); }
      a * (q * y);
      q * (a * y);
    <= { MulMono(a * y, b * x, q); }
      q * (b * x);
      (b * q) * x;
    }
  }

  /** Geometric decay below one is zero. */
  lemma DecayedToZero(z: nat, y: nat, x: nat, a: nat, b: nat)
    requires b * z <= a * y && y <= x && a * x < b
    ensures z == 0
  {
    MulMono(y, x, a);
    if 1 <= z { MulMono(1, z, b); }
  }

  lemma {:induction false} PowExceeds(d: nat, n: nat, x: nat)
    requires 2 <= d && d * x <= n
    ensures Pow(d - 1, n) * x < Pow(d, n)
  {
    PowPositive(d, n);
    PowPositive(d - 1, n);
    Bernoulli(d, n);
    ExceedsFromBernoulli(d, n, x, Pow(d - 1, n), Pow(d, n));
  }

  lemma ExceedsFromBernoulli(d: nat, n: nat, x: nat, p: nat, q: nat)
    requires 1 <= d && d * x <= n && (d + n) * p <= d * q && 1 <= p
    ensures p * x < q
  {
    assert (d + n) * p == d * p + n * p;
    MulMono(d * x, n, p);
    MulMono(1, p, d);
    assert d * x * p == d * (p * x);
    if q <= p * x { MulMono(q, p * x, d); }
  }

  lemma {:induction false} PowPositive(d: nat, n: nat)
    requires 1 <= d
    ensures 1 <= Pow(d, n)
  {
    if n > 0 {
      PowPositive(d, n - 1);
      MulMono(1, d, Pow(d, n - 1));
    }
  }

  lemma {:induction false} Bernoulli(d: nat, n: nat)
    requires 2 <= d
    ensures (d + n) * Pow(d - 1, n) <= d * Pow(d, n)
  {
    if n > 0 {
      Bernoulli(d, n - 1);
      BernoulliStep(d, n, Pow(d - 1, n - 1), Pow(d, n - 1));
    }
  }

  lemma BernoulliFactor(d: nat, n: nat)
    requires 2 <= d && 1 <= n
    ensures (d + n) * (d - 1) <= d * (d + (n - 1))
  {
    assert (d + n) * (d - 1) == (d + n) * d - (d + n);
    assert (d + n) * d == d * (d + (n - 1)) + d;
  }

  lemma BernoulliStep(d: nat, n: nat, p: nat, q: nat)
    requires 2 <= d && 1 <= n && (d + (n - 1)) * p <= d * q
    ensures (d + n) * ((d - 1) * p) <= d * (d * q)
  {
    BernoulliFactor(d, n);
    ThroughFactor((d + n), (d - 1), d, (d + (n - 1)), p, d * q);
  }

  lemma ThroughFactor(a: nat, b: nat, c: nat, e: nat, p: nat, r: nat)
    requires a * b <= c * e && e * p <= r
    ensures a * (b * p) <= c * r
  {
    MulMono(a * b, c * e, p);
    MulMono(e * p, r, c);
    assert a * (b * p) == (a * b) * p;
    assert (c * e) * p == c * (e * p);
    assert (e * p) * c == c * (e * p) && r * c == c * r;
  }

  /** Once the excess is below D, or the fee sits on a cap below overhead + D, no empty block moves it. */
  lemma {:induction false} IdleFixedPoint(fee: nat, overhead: nat, cap: nat, d: nat, n: nat)
    requires 2 <= d && fee <= cap && SatSub(fee, overhead) < d && Min(overhead, cap) <= fee
    ensures Iterate(fee, overhead, cap, d, n) == fee
  {
    if n > 0 {
      IdleShrinks(SatSub(fee, overhead), d);
      IdleFixedPoint(fee, overhead, cap, d, n - 1);
    }
  }

  function SettledFee(fee: nat, overhead: nat, cap: nat, d: nat): nat
    requires 1 <= d
  {
    Min(overhead + Min(SatSub(fee, overhead), d - 1), cap)
  }

  lemma FirstStepSettled(fee: nat, overhead: nat, cap: nat, d: nat)
    requires 2 <= d
    ensures var first := IdleStep(fee, overhead, cap, d);
            && Min(overhead, cap) <= first <= cap
            && (SatSub(first, overhead) < d - 1 || SatSub(fee, overhead) < d ==>
                  first == SettledFee(fee, overhead, cap, d))
            && (d - 1 <= SatSub(first, overhead) ==>
                  overhead + (d - 1) <= first && (d <= SatSub(fee, overhead) ==> first <= fee)
                  && SettledFee(fee, overhead, cap, d) == overhead + (d - 1))
  {
    IdleShrinks(SatSub(fee, overhead), d);
  }

  lemma DecaySettles(first: nat, overhead: nat, cap: nat, d: nat, n: nat, x: nat)
    requires 2 <= d && overhead + (d - 1) <= first <= cap && first - overhead - (d - 1) <= x
    requires Pow(d - 1, n) * x < Pow(d, n)
    ensures Iterate(first, overhead, cap, d, n) == overhead + (d - 1)
  {
    IdleDecay(first, overhead, cap, d, n);
    DecayedToZero(Iterate(first, overhead, cap, d, n) - overhead - (d - 1), first - overhead - (d - 1), x,
                  Pow(d - 1, n), Pow(d, n));
  }

  lemma IdleSettles(fee: nat, overhead: nat, cap: nat, d: nat, n: nat)
    requires 2 <= d
    requires Pow(d - 1, n) * SatSub(SatSub(fee, overhead), d - 1) < Pow(d, n)
    ensures Iterate(fee, overhead, cap, d, n + 1) == SettledFee(fee, overhead, cap, d)
  {
    var first := IdleStep(fee, overhead, cap, d);
    assert Iterate(fee, overhead, cap, d, n + 1) == Iterate(first, overhead, cap, d, n);
    FirstStepSettled(fee, overhead, cap, d);
    if SatSub(first, overhead) < d - 1 || SatSub(fee, overhead) < d {
      IdleFixedPoint(first, overhead, cap, d, n);
    } else {
      DecaySettles(first, overhead, cap, d, n, SatSub(SatSub(fee, overhead), d - 1));
    }
  }

  /**
   Idle chains settle. Whatever the starting fee, the overhead and the cap, a run of empty blocks
   under one set of parameters ends on overhead + min(initial excess, D - 1), cut at the cap, once
   ((D - 1) / D)^n has worn the remaining excess down below one wei.
   */
  lemma IdleRunSettles(spec: ChainSpec, fee: U64, parentLimit: U64, overhead: U64,
                       blocks: seq<EmptyBlock>, cap: U64, p: BaseFeeParams)
    requires fee <= MAX_L2_BASE_FEE && GasLimit.MINIMUM_GAS_LIMIT <= parentLimit && ValidParams(p) && blocks != []
    requires forall b <- blocks :: GasLimit.MINIMUM_GAS_LIMIT <= b.gasLimit
    requires forall b <- blocks :: spec.CapAt(b.timestamp) == cap && spec.ParamsAt(b.timestamp) == p
    requires var d := p.denominator;
             Pow(d - 1, |blocks| - 1) * SatSub(SatSub(fee, overhead), d - 1) < Pow(d, |blocks| - 1)
    ensures IdleRun(spec, fee, parentLimit, overhead, blocks) == SettledFee(fee, overhead, cap, p.denominator)
  {
    IdleRunIterates(spec, fee, parentLimit, overhead, blocks, cap, p);
    IdleSettles(fee, overhead, cap, p.denominator, |blocks| - 1);
  }

  /** D blocks for each wei above the fixed point always suffice, so every idle chain does settle. */
  lemma IdleRunSettlesEventually(spec: ChainSpec, fee: U64, parentLimit: U64, overhead: U64,
                                 blocks: seq<EmptyBlock>, cap: U64, p: BaseFeeParams)
    requires fee <= MAX_L2_BASE_FEE && GasLimit.MINIMUM_GAS_LIMIT <= parentLimit && ValidParams(p)
    requires forall b <- blocks :: GasLimit.MINIMUM_GAS_LIMIT <= b.gasLimit
    requires forall b <- blocks :: spec.CapAt(b.timestamp) == cap && spec.ParamsAt(b.timestamp) == p
    requires p.denominator * SatSub(SatSub(fee, overhead), p.denominator - 1) < |blocks|
    ensures IdleRun(spec, fee, parentLimit, overhead, blocks) == SettledFee(fee, overhead, cap, p.denominator)
  {
    PowExceeds(p.denominator, |blocks| - 1, SatSub(SatSub(fee, overhead), p.denominator - 1));
    IdleRunSettles(spec, fee, parentLimit, overhead, blocks, cap, p);
  }
}
