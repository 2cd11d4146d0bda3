/** The gas-limit ramp of the payload builder and the consensus rule that bounds it. */
module GasLimit {
  import opened MachineInts

  const GAS_LIMIT_BOUND_DIVISOR: nat := 1024
  const MINIMUM_GAS_LIMIT: U64 := 5000

  datatype Verdict = Accepted | InvalidIncrease | InvalidDecrease | BelowMinimum

  function AbsDiff(a: nat, b: nat): nat { if a <= b then b - a else a - b }

  /** `validate_gas_limit_against_parent`. */
  function Validate(gasLimit: U64, parent: U64): Verdict {
    if AbsDiff(gasLimit, parent) > parent / GAS_LIMIT_BOUND_DIVISOR then
      if gasLimit > parent then InvalidIncrease else InvalidDecrease
    else if gasLimit < MINIMUM_GAS_LIMIT then BelowMinimum
    else Accepted
  }

  /** `next_block_gas_limit`. */
  function NextGasLimit(attributes: Option<U64>, target: Option<U64>, parent: U64): U64 {
    match attributes
    case Some(limit) => limit
    case None =>
      match target
      case None => parent
      case Some(t) =>
        var step := parent / GAS_LIMIT_BOUND_DIVISOR;
        Clamp(t, SatSub(parent, step), SatAdd(parent, step))
  }

  /** One step toward a configured target. */
  function Step(parent: U64, target: U64): U64 { NextGasLimit(None, Some(target), parent) }

  /** Without an override the only thing consensus can object to is a limit below the minimum. */
  lemma NextGasLimitVerdict(attributes: Option<U64>, target: Option<U64>, parent: U64)
    ensures attributes.None? ==>
              Validate(NextGasLimit(attributes, target, parent), parent)
              == if NextGasLimit(attributes, target, parent) < MINIMUM_GAS_LIMIT then BelowMinimum else Accepted
    ensures attributes.Some? ==>
              (Validate(NextGasLimit(attributes, target, parent), parent) == Accepted
               <==> MINIMUM_GAS_LIMIT <= attributes.value
                    && parent - parent / 1024 <= attributes.value <= parent + parent / 1024)
  {
  }

  /** An override is taken as it is; without an override or a target the parent's limit is kept. */
  lemma OverrideOrParentIsKept(attributes: Option<U64>, target: Option<U64>, parent: U64)
    ensures attributes.Some? ==> NextGasLimit(attributes, target, parent) == attributes.value
    ensures attributes.None? && target.None? ==> NextGasLimit(attributes, target, parent) == parent
  {
  }

  /** What consensus objects to: first a rise or fall by more than a 1024th of the parent, then a limit below 5000. */
  lemma VerdictIff(gasLimit: U64, parent: U64)
    ensures Validate(gasLimit, parent) == InvalidIncrease <==> gasLimit > parent + parent / 1024
    ensures Validate(gasLimit, parent) == InvalidDecrease <==> gasLimit < parent - parent / 1024
    ensures Validate(gasLimit, parent) == BelowMinimum
            <==> gasLimit < 5000 && parent - parent / 1024 <= gasLimit <= parent + parent / 1024
    ensures Validate(gasLimit, parent) == Accepted
            <==> 5000 <= gasLimit && parent - parent / 1024 <= gasLimit <= parent + parent / 1024
  {
  }

  /** A step closes exactly min(distance, parent / 1024) of the distance and stays on its side. */
  lemma StepCloses(parent: U64, target: U64)
    ensures AbsDiff(Step(parent, target), target) == SatSub(AbsDiff(parent, target), parent / 1024)
    ensures parent <= target ==> parent <= Step(parent, target) <= target
    ensures target <= parent ==> target <= Step(parent, target) <= parent
  {
  }

  /** The ramp stands still exactly at its target, or below the divisor, where its step is zero. */
  lemma StepStandsStill(parent: U64, target: U64)
    ensures Step(parent, target) == parent <==> parent == target || parent < 1024
  {
  }

  function Ramp(start: U64, target: U64, n: nat): U64 {
    if n == 0 then start else Step(Ramp(start, target, n - 1), target)
  }

  lemma {:induction false} RampBetween(start: U64, target: U64, n: nat, limit: U64)
    requires limit == Ramp(start, target, n)
    ensures Min(start, target) <= limit <= Max(start, target)
  {
    if n > 0 {
      RampBetween(start, target, n - 1, Ramp(start, target, n - 1));
      StepCloses(Ramp(start, target, n - 1), target);
    }
  }

  /** Every block of the ramp is between start and target, no farther than the one before, and valid. */
  lemma RampIsMonotoneAndValid(start: U64, target: U64, n: nat)
    requires MINIMUM_GAS_LIMIT <= start && MINIMUM_GAS_LIMIT <= target
    ensures start <= target ==> start <= Ramp(start, target, n) <= Ramp(start, target, n + 1) <= target
    ensures target <= start ==> target <= Ramp(start, target, n + 1) <= Ramp(start, target, n) <= start
    ensures Validate(Ramp(start, target, n + 1), Ramp(start, target, n)) == Accepted
  {
    RampBetween(start, target, n, Ramp(start, target, n));
    StepCloses(Ramp(start, target, n), target);
    NextGasLimitVerdict(None, Some(target), Ramp(start, target, n));
  }

  /** The distance `n` steps of at least `s` have closed. */
  function Closed(n: nat, s: nat): nat { if n == 0 then 0 else Closed(n - 1, s) + s }

  lemma {:induction false} ClosedIsProduct(n: nat, s: nat)
    ensures Closed(n, s) == n * s
  {
    if n > 0 {
      ClosedIsProduct(n - 1, s);
      assert n * s == (n - 1) * s + s;
    }
  }

  lemma RampStepIsAtLeast(start: U64, target: U64, n: nat, prev: U64)
    requires prev == Ramp(start, target, n)
    ensures Min(start, target) / 1024 <= prev / 1024 && Ramp(start, target, n + 1) == Step(prev, target)
  {
    RampBetween(start, target, n, prev);
  }

  function RampDistance(start: U64, target: U64, n: nat): nat { AbsDiff(Ramp(start, target, n), target) }

  lemma RampStepCloses(start: U64, target: U64, n: nat, s: nat)
    requires s == Min(start, target) / 1024
    ensures RampDistance(start, target, n + 1) <= SatSub(RampDistance(start, target, n), s)
  {
    var prev := Ramp(start, target, n);
    RampStepIsAtLeast(start, target, n, prev);
    StepCloses(prev, target);
  }

  lemma CloseMore(distance: nat, closed: nat, s: nat, left: nat)
    requires left <= SatSub(distance, closed)
    ensures SatSub(left, s) <= SatSub(distance, closed + s)
  {
  }

  predicate Falls(d: nat -> nat, s: nat, k: nat) { d(k + 1) <= SatSub(d(k), s) }

  /** A distance that falls by `s` at every step until it is zero. */
  lemma {:induction false} DistanceShrinks(d: nat -> nat, s: nat, n: nat)
    requires forall k :: 0 <= k < n ==> Falls(d, s, k)
    ensures d(n) <= SatSub(d(0), Closed(n, s))
  {
    if n > 0 {
      DistanceShrinks(d, s, n - 1);
      assert Falls(d, s, n - 1);
      CloseMore(d(0), Closed(n - 1, s), s, d(n - 1));
    }
  }

  lemma RampDistanceShrinks(start: U64, target: U64, n: nat, s: nat)
    requires s == Min(start, target) / 1024
    ensures RampDistance(start, target, n) <= SatSub(RampDistance(start, target, 0), Closed(n, s))
  {
    var d := (k: nat) => RampDistance(start, target, k);
    forall k | 0 <= k < n ensures Falls(d, s, k) { RampStepCloses(start, target, k, s); }
    DistanceShrinks(d, s, n);
  }

  function CeilDiv(a: nat, b: nat): nat
    requires 0 < b
  {
    Quot(a + b - 1, b)
  }

  /** The ramp is on its target within ceil(distance / floor(min(start, target) / 1024)) blocks, and stays. */
  lemma RampArrives(start: U64, target: U64, n: nat)
    requires MINIMUM_GAS_LIMIT <= start && MINIMUM_GAS_LIMIT <= target
    requires CeilDiv(AbsDiff(start, target), Min(start, target) / 1024) <= n
    ensures Ramp(start, target, n) == target
  {
    var s := Min(start, target) / 1024;
    var d := AbsDiff(start, target);
    QuotBounds(d + s - 1, s);
    MulMono(CeilDiv(d, s), n, s);
    ClosedIsProduct(n, s);
    RampDistanceShrinks(start, target, n, s);
  }

  /** A chain of limits each of which consensus accepts on top of the one before. */
  predicate AcceptedChain(limits: seq<U64>) {
    limits != [] && forall i :: 0 < i < |limits| ==> Validate(limits[i], limits[i - 1]) == Accepted
  }

  /** A block of the ramp is at least as far on the way from `start` to `target` as `limit`, or it has arrived. */
  predicate Leads(start: U64, target: U64, ramp: U64, limit: U64) {
    && (start <= target ==> ramp == target || limit <= ramp <= target)
    && (target <= start ==> ramp == target || target <= ramp <= limit)
  }

  lemma LeadIsKept(start: U64, target: U64, ramp: U64, prev: U64, limit: U64)
    requires Leads(start, target, ramp, prev) && Validate(limit, prev) == Accepted
    ensures Leads(start, target, Step(ramp, target), limit)
  {
    StepCloses(ramp, target);
  }

  /** No accepted chain gets ahead of the ramp before the ramp arrives. */
  lemma {:induction false} RampLeads(limits: seq<U64>, target: U64, n: nat)
    requires AcceptedChain(limits) && n < |limits|
    ensures Leads(limits[0], target, Ramp(limits[0], target, n), limits[n])
  {
    if n > 0 {
      RampLeads(limits, target, n - 1);
      LeadIsKept(limits[0], target, Ramp(limits[0], target, n - 1), limits[n - 1], limits[n]);
    }
  }

  /** The ramp is optimal: no chain consensus accepts reaches the target in fewer blocks. */
  lemma RampIsFastest(limits: seq<U64>)
    requires AcceptedChain(limits)
    ensures var n, target := |limits| - 1, limits[|limits| - 1];
            Ramp(limits[0], target, n) == target
  {
    RampLeads(limits, limits[|limits| - 1], |limits| - 1);
  }
}
