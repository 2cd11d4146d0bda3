/** The fee API's view of a block: each transaction's gas from the receipts, capacity, and the suggested tip. */
module PriorityFee {
  import opened MachineInts
  import opened BlockExecutor

  /** The gas of each transaction, by differencing the cumulative gas of the receipts. */
  function Differences(receipts: seq<Receipt>): (r: seq<nat>)
    ensures |r| == |receipts|
  {
    if receipts == [] then []
    else
      var n := |receipts| - 1;
      Differences(receipts[..n])
      + [SatSub(receipts[n].cumulativeGasUsed, LastCumulativeGas(receipts[..n]))]
  }

  /** The receipt loop: the largest gas of a transaction, with the code's saturating subtraction. */
  method MaxTxGasUsed(receipts: seq<Receipt>) returns (max: nat)
    ensures forall gas <- Differences(receipts) :: gas <= max
    ensures if receipts == [] then max == 0 else max in Differences(receipts)
  {
    max := 0;
    var last: U64 := 0;
    for i := 0 to |receipts|
      invariant last == LastCumulativeGas(receipts[..i])
      invariant forall gas <- Differences(receipts[..i]) :: gas <= max
      invariant if i == 0 then max == 0 else max in Differences(receipts[..i])
    {
      var cumulative := receipts[i].cumulativeGasUsed;
      assert receipts[..i + 1][..i] == receipts[..i];
      assert Differences(receipts[..i + 1]) == Differences(receipts[..i]) + [SatSub(cumulative, last)];
      max := Max(max, SatSub(cumulative, last));
      last := cumulative;
    }
    assert receipts[..|receipts|] == receipts;
  }

  lemma DifferencesSnoc(receipts: seq<Receipt>, n: nat)
    requires n < |receipts|
    ensures Differences(receipts[..n + 1])
            == Differences(receipts[..n]) + [SatSub(receipts[n].cumulativeGasUsed, LastCumulativeGas(receipts[..n]))]
  {
    assert receipts[..n + 1][..n] == receipts[..n];
  }

  lemma DifferenceIsGas(x: Exec, env: BlockEnv, n: nat)
    requires GasAccounted(x, env) && n < |x.receipts|
    ensures LastCumulativeGas(x.receipts[..n]) <= x.receipts[n].cumulativeGasUsed
    ensures SatSub(x.receipts[n].cumulativeGasUsed, LastCumulativeGas(x.receipts[..n])) == x.spent[n]
  {
    LastIsPrefixSum(x, env, n);
  }

  /** On receipts of the executor the differences are the transactions' gas. */
  lemma {:induction false} DifferencesRecoverGas(x: Exec, env: BlockEnv, n: nat)
    requires GasAccounted(x, env) && n <= |x.receipts|
    ensures Differences(x.receipts[..n]) == x.spent[..n]
    decreases n
  {
    if n > 0 {
      DifferencesRecoverGas(x, env, n - 1);
      OneMoreDifference(x, env, n - 1);
    }
  }

  lemma OneMoreDifference(x: Exec, env: BlockEnv, n: nat)
    requires GasAccounted(x, env) && n < |x.receipts| && Differences(x.receipts[..n]) == x.spent[..n]
    ensures Differences(x.receipts[..n + 1]) == x.spent[..n + 1]
  {
    var gas := SatSub(x.receipts[n].cumulativeGasUsed, LastCumulativeGas(x.receipts[..n]));
    DifferenceIsGas(x, env, n);
    DifferencesSnoc(x.receipts, n);
    OneMoreGas(x.spent, n, gas);
  }

  lemma OneMoreGas(spent: seq<U64>, n: nat, gas: nat)
    requires n < |spent| && gas == spent[n]
    ensures spent[..n] + [gas] == spent[..n + 1]
  {
  }

  lemma LastIsPrefixSum(x: Exec, env: BlockEnv, n: nat)
    requires GasAccounted(x, env) && n <= |x.receipts|
    ensures LastCumulativeGas(x.receipts[..n]) == SumOf(x.spent[..n])
    ensures n < |x.receipts| ==> x.receipts[n].cumulativeGasUsed == SumOf(x.spent[..n]) + x.spent[n]
  {
    if n < |x.receipts| { assert x.spent[..n + 1][..n] == x.spent[..n]; }
  }

  /** So the API's largest-transaction value is the true maximum of the block. */
  method LargestTransaction(ghost x: Exec, ghost env: BlockEnv, receipts: seq<Receipt>) returns (max: nat)
    requires GasAccounted(x, env) && receipts == x.receipts
    ensures forall gas <- x.spent :: gas <= max
    ensures if x.spent == [] then max == 0 else max in x.spent
  {
    max := MaxTxGasUsed(receipts);
    DifferencesRecoverGas(x, env, |x.receipts|);
    assert x.receipts[..|x.receipts|] == x.receipts && x.spent[..|x.receipts|] == x.spent;
  }

  /** `is_at_capacity`. */
  predicate IsAtCapacity(gasUsed: U64, gasLimit: U64, maxTxGas: U64, payload: U64, maxTxPayload: U64,
                         payloadLimit: U64) {
    SatAdd(gasUsed, maxTxGas) > gasLimit || SatAdd(payload, maxTxPayload) > payloadLimit
  }

  /** The test is exact but for a limit of 2^64 - 1, which the saturating sums never exceed. */
  lemma AtCapacityIff(gasUsed: U64, gasLimit: U64, maxTxGas: U64, payload: U64, maxTxPayload: U64, payloadLimit: U64)
    ensures IsAtCapacity(gasUsed, gasLimit, maxTxGas, payload, maxTxPayload, payloadLimit)
            <==> (gasUsed + maxTxGas > gasLimit && gasLimit < U64_MAX)
                 || (payload + maxTxPayload > payloadLimit && payloadLimit < U64_MAX)
  {
  }

  // ----- The tip suggested for a full block --------------------------------------------------------------

  type U128 = n: nat | n < 0x1_0000_0000_0000_0000_0000_0000_0000_0000

  predicate Ascending(tips: seq<nat>) {
    forall i, j :: 0 <= i < j < |tips| ==> tips[i] <= tips[j]
  }

  /** The mean of the two middle tips as computed: their sum wraps at 2^128. */
  function WrappingMean(a: nat, b: nat): nat {
    ((a + b) % 0x1_0000_0000_0000_0000_0000_0000_0000_0000) / 2
  }

  function Median(tips: seq<U128>): nat
    requires tips != []
  {
    var mid := |tips| / 2;
    if |tips| % 2 == 1 then tips[mid] else WrappingMean(tips[mid - 1], tips[mid])
  }

  function Raised(tip: nat): nat { tip + tip / 10 }

  /** `capacity_tip` after its sort. */
  function CapacityTip(sorted: seq<U128>, minimum: nat, maximum: Option<nat>): nat {
    if sorted == [] then minimum
    else
      var median := Median(sorted);
      var suggestion := Max(Raised(median), minimum);
      if maximum.Some? then Min(suggestion, maximum.value) else suggestion
  }

  /**
   Unless the middle sum wraps, the suggestion is at least the least tip plus a tenth and at most the
   greatest tip plus a tenth, as far as the configured minimum and maximum allow.
   */
  lemma SuggestionIsBracketed(sorted: seq<U128>, minimum: nat, maximum: Option<nat>)
    requires sorted != [] && Ascending(sorted)
    requires |sorted| % 2 == 0 ==> sorted[|sorted| / 2 - 1] + sorted[|sorted| / 2] < TWO_128
    ensures var tip := CapacityTip(sorted, minimum, maximum);
            var (low, high) := (sorted[0], sorted[|sorted| - 1]);
            var least := Max(Raised(low), minimum);
            var most := Max(Raised(high), minimum);
            if maximum.Some? then Min(least, maximum.value) <= tip <= Min(most, maximum.value) else least <= tip <= most
  {
    var mid := |sorted| / 2;
    if |sorted| % 2 == 0 { MeanIsBetweenIff(sorted[mid - 1], sorted[mid]); }
    assert sorted[0] <= Median(sorted) <= sorted[|sorted| - 1];
  }

  /**
   The suggestion in full: a tenth more than the middle tip, rounded down, or than the mean of the two
   middle ones, rounded down, unless that falls below the minimum or above the maximum, which wins.
   */
  lemma SuggestionIsRaisedMedian(sorted: seq<U128>, minimum: nat, maximum: Option<nat>)
    requires sorted != [] && Ascending(sorted)
    requires |sorted| % 2 == 0 ==> sorted[|sorted| / 2 - 1] + sorted[|sorted| / 2] < TWO_128
    ensures var half := |sorted| / 2;
            var middle: nat := sorted[half];
            var median: nat := if |sorted| % 2 == 1 then middle else (sorted[half - 1] + middle) / 2;
            var raised := 11 * median / 10;
            CapacityTip(sorted, minimum, maximum)
            == if maximum.Some? && maximum.value < Max(raised, minimum) then maximum.value else Max(raised, minimum)
  {
    var half := |sorted| / 2;
    if |sorted| % 2 == 0 { MeanIsExact(sorted[half - 1], sorted[half]); }
    RaisedIsElevenTenths(Median(sorted));
  }

  lemma RaisedIsElevenTenths(tip: nat)
    ensures Raised(tip) == 11 * tip / 10
  {
  }

  lemma MeanIsExact(a: nat, b: nat)
    requires a + b < TWO_128
    ensures WrappingMean(a, b) == (a + b) / 2
  {
  }

  /** Without any tip the suggestion is the minimum, whatever the maximum. */
  lemma NoTipsGiveTheMinimum(minimum: nat, maximum: Option<nat>)
    ensures CapacityTip([], minimum, maximum) == minimum
  {
  }

  lemma SameFirst(a: seq<nat>, b: seq<nat>)
    requires Ascending(a) && Ascending(b) && multiset(a) == multiset(b) && a != [] && b != []
    ensures a[0] == b[0]
  {
    assert a[0] in multiset(b) && b[0] in multiset(a);
    var i :| 0 <= i < |b| && b[i] == a[0];
    var j :| 0 <= j < |a| && a[j] == b[0];
    assert b[0] <= b[i] && a[0] <= a[j];
  }

  lemma SameRest(a: seq<nat>, b: seq<nat>)
    requires a != [] && b != [] && a[0] == b[0] && multiset(a) == multiset(b)
    ensures multiset(a[1..]) == multiset(b[1..])
  {
    assert multiset(a) == multiset{a[0]} + multiset(a[1..]) by { assert a == [a[0]] + a[1..]; }
    assert multiset(b) == multiset{b[0]} + multiset(b[1..]) by { assert b == [b[0]] + b[1..]; }
    assert multiset(a[1..]) == multiset(a) - multiset{a[0]};
    assert multiset(b[1..]) == multiset(b) - multiset{b[0]};
  }

  /** Whatever order the tips were collected in, sorting them gives one list, and so one suggestion. */
  lemma {:induction false} SortedIsUnique(a: seq<nat>, b: seq<nat>)
    requires Ascending(a) && Ascending(b) && multiset(a) == multiset(b)
    ensures a == b
    decreases |a|
  {
    assert |multiset(a)| == |a| && |multiset(b)| == |b|;
    if a != [] {
      SameFirst(a, b);
      SameRest(a, b);
      SortedIsUnique(a[1..], b[1..]);
      assert a == [a[0]] + a[1..] && b == [b[0]] + b[1..];
    }
  }

  /** The median lies between the two middle tips exactly when their sum does not wrap. */
  lemma MeanIsBetweenIff(a: U128, b: U128)
    requires a <= b
    ensures a <= WrappingMean(a, b) <= b <==> a + b < TWO_128
  {
    var low: nat, high: nat := a, b;
    if low + high < TWO_128 {
      assert (low + high) % TWO_128 == low + high;
    } else {
      assert (low + high) % TWO_128 == low + high - TWO_128;
    }
  }
}
