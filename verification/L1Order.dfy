/** The consensus rule on the order of L1 messages inside a block. */
module L1Order {
  import opened MachineInts
  import opened Transaction

  /** The first `k` transactions are L1 messages with successive queue indices; the rest are not L1 messages. */
  predicate L1Run(txs: seq<Tx>, k: nat) {
    && k <= |txs|
    && (forall i :: 0 <= i < k ==> txs[i].L1Message?)
    && (forall i :: 0 < i < k ==> txs[i].queueIndex == WrapAdd(txs[i - 1].queueIndex, 1))
    && (forall i :: k <= i < |txs| ==> !txs[i].L1Message?)
  }

  /** A block body the rule should accept. */
  ghost predicate WellOrdered(txs: seq<Tx>) {
    exists k :: L1Run(txs, k)
  }

  /** `validate_l1_messages`, with the release build's wrapping `queue_index + 1`. */
  method ValidateL1Messages(txs: seq<Tx>) returns (ok: bool)
    ensures ok <==> WellOrdered(txs)
  {
    var sawL2 := false;
    var nextQueueIndex: Option<U64> := None;
    ghost var run := 0;
    for n := 0 to |txs|
      invariant run <= n && L1Run(txs[..n], run)
      invariant sawL2 <==> run < n
      invariant nextQueueIndex == if run == 0 then None else Some(WrapAdd(txs[run - 1].queueIndex, 1))
    {
      var tx := txs[n];
      if tx.L1Message? {
        if sawL2 {
          assert !txs[n - 1].L1Message? by { assert txs[..n][n - 1] == txs[n - 1]; }
          return false;
        }
        if nextQueueIndex.Some? && tx.queueIndex != nextQueueIndex.value {
          assert txs[..n][n - 1].L1Message?;
          return false;
        }
        nextQueueIndex := Some(WrapAdd(tx.queueIndex, 1));
        run := run + 1;
      } else {
        sawL2 := true;
      }
    }
    assert txs[..|txs|] == txs;
    return true;
  }

  /** An accepted run counts up by one from its first index exactly when it does not pass 2^64 - 1. */
  lemma RunCountsUp(txs: seq<Tx>, k: nat)
    requires L1Run(txs, k) && 0 < k
    ensures (forall i :: 0 <= i < k ==> txs[i].queueIndex == txs[0].queueIndex + i)
            <==> txs[0].queueIndex + (k - 1) <= U64_MAX
  {
    if txs[0].queueIndex + (k - 1) <= U64_MAX {
      forall i | 0 <= i < k ensures txs[i].queueIndex == txs[0].queueIndex + i {
        IndexAt(txs, k, i);
      }
    } else {
      assert txs[k - 1].queueIndex <= U64_MAX;
    }
  }

  lemma {:induction false} IndexAt(txs: seq<Tx>, k: nat, i: nat)
    requires L1Run(txs, k) && i < k && txs[0].queueIndex + i <= U64_MAX
    ensures txs[i].queueIndex == txs[0].queueIndex + i
  {
    if i > 0 { IndexAt(txs, k, i - 1); }
  }

  /** Past the last index the rule wraps: index 0 is accepted right after index 2^64 - 1. */
  lemma WrappedRunIsAccepted()
    ensures WellOrdered([L1Message(0, 0, 0, U64_MAX), L1Message(1, 0, 0, 0)])
  {
    assert L1Run([L1Message(0, 0, 0, U64_MAX), L1Message(1, 0, 0, 0)], 2);
  }

  // ----- Lists made by dropping transactions --------------------------------------------------

  /** `sub` is `txs` at the increasing positions `pos`. */
  predicate Picks(sub: seq<Tx>, txs: seq<Tx>, pos: seq<nat>) {
    && |pos| == |sub|
    && (forall i :: 0 <= i < |pos| ==> pos[i] < |txs| && sub[i] == txs[pos[i]])
    && (forall i, j :: 0 <= i < j < |pos| ==> pos[i] < pos[j])
  }

  /** Two messages of a run shorter than 2^64 have successive indices exactly when they are neighbours. */
  lemma SuccessorsAreNeighbours(txs: seq<Tx>, k: nat, i: nat, j: nat)
    requires L1Run(txs, k) && k <= TWO_64 && i < j < k
    ensures txs[j].queueIndex == WrapAdd(txs[i].queueIndex, 1) <==> j == i + 1
  {
    IndexModulo(txs, k, i);
    IndexModulo(txs, k, j);
  }

  lemma {:induction false} IndexModulo(txs: seq<Tx>, k: nat, i: nat)
    requires L1Run(txs, k) && i < k <= TWO_64
    ensures txs[i].queueIndex == if txs[0].queueIndex + i <= U64_MAX then txs[0].queueIndex + i
                                 else txs[0].queueIndex + i - TWO_64
  {
    if i > 0 { IndexModulo(txs, k, i - 1); }
  }

  lemma {:induction false} PositionsAreContiguous(pos: seq<nat>, i: nat)
    requires i < |pos| && forall j :: 0 < j < |pos| ==> pos[j] == pos[j - 1] + 1
    ensures pos[i] == pos[0] + i
  {
    if i > 0 { PositionsAreContiguous(pos, i - 1); }
  }

  lemma RunIsWholePrefix(sub: seq<Tx>, tail: seq<Tx>, m: nat)
    requires (forall tx <- sub :: tx.L1Message?) && (forall tx <- tail :: !tx.L1Message?) && L1Run(sub + tail, m)
    ensures m == |sub|
  {
    var all := sub + tail;
    var first := if m < |sub| then all[m] else Blob(0, 0, 0);
    var second := if |sub| < m then all[|sub|] else L1Message(0, 0, 0, 0);
    assert !first.L1Message? && second.L1Message?;
    assert m < |sub| ==> first in sub;
    assert |sub| < m ==> second in tail;
  }

  /** No position is missing between two that are there. */
  predicate NoGap(pos: seq<nat>) {
    forall j :: 0 < j < |pos| ==> pos[j] == pos[j - 1] + 1
  }

  /**
   A list that keeps some messages of a run and follows them with transactions that are not L1
   messages is well ordered exactly when no message is missing between two kept ones.
   */
  lemma WellOrderedIffNoGap(txs: seq<Tx>, k: nat, sub: seq<Tx>, pos: seq<nat>, tail: seq<Tx>)
    requires L1Run(txs, k) && k <= TWO_64 && Picks(sub, txs[..k], pos) && forall tx <- tail :: !tx.L1Message?
    ensures WellOrdered(sub + tail) <==> NoGap(pos)
  {
    var all := sub + tail;
    if WellOrdered(all) {
      var m: nat :| L1Run(all, m);
      RunIsWholePrefix(sub, tail, m);
      forall j | 0 < j < |pos| ensures pos[j] == pos[j - 1] + 1 {
        assert all[j] == sub[j] && all[j - 1] == sub[j - 1];
        SuccessorsAreNeighbours(txs, k, pos[j - 1], pos[j]);
      }
    }
    if NoGap(pos) {
      forall j | 0 < j < |sub| ensures all[j].queueIndex == WrapAdd(all[j - 1].queueIndex, 1) {
        assert all[j] == sub[j] == txs[pos[j]] && all[j - 1] == sub[j - 1] == txs[pos[j - 1]];
      }
      assert L1Run(all, |sub|);
    }
  }

  /** Equivalently, when the kept messages are a contiguous stretch of the run. */
  lemma WellOrderedIffContiguous(txs: seq<Tx>, k: nat, sub: seq<Tx>, pos: seq<nat>, tail: seq<Tx>)
    requires L1Run(txs, k) && k <= TWO_64 && Picks(sub, txs[..k], pos) && forall tx <- tail :: !tx.L1Message?
    ensures WellOrdered(sub + tail) <==> exists a, b :: 0 <= a <= b <= k && sub == txs[a..b]
  {
    WellOrderedIffNoGap(txs, k, sub, pos, tail);
    if sub == [] {
      assert sub == txs[0..0];
    } else if NoGap(pos) {
      var a, b := pos[0], pos[|pos| - 1] + 1;
      PositionsAreContiguous(pos, |pos| - 1);
      forall i | 0 <= i < |sub| ensures sub[i] == txs[a..b][i] {
        PositionsAreContiguous(pos, i);
      }
      assert sub == txs[a..b];
    }
    if a, b :| 0 <= a <= b <= k && sub == txs[a..b] { StretchIsWellOrdered(txs, k, a, b, tail); }
  }

  lemma StretchIsWellOrdered(txs: seq<Tx>, k: nat, a: nat, b: nat, tail: seq<Tx>)
    requires L1Run(txs, k) && a <= b <= k && forall tx <- tail :: !tx.L1Message?
    ensures WellOrdered(txs[a..b] + tail)
  {
    var all := txs[a..b] + tail;
    forall i | 0 < i < b - a ensures all[i].queueIndex == WrapAdd(all[i - 1].queueIndex, 1) {
      assert all[i] == txs[a + i] && all[i - 1] == txs[a + i - 1];
    }
    assert L1Run(all, b - a);
  }

  // ----- Dropping by verdict -------------------------------------------------------------------

  /** `pos` lists, in order, the indices that are kept. */
  predicate Selects(pos: seq<nat>, kept: seq<bool>) {
    && (forall i, j :: 0 <= i < j < |pos| ==> pos[i] < pos[j])
    && (forall u :: 0 <= u < |pos| ==> pos[u] < |kept| && kept[pos[u]])
    && (forall i :: 0 <= i < |kept| && kept[i] ==> i in pos)
  }

  /** Below `k`, something is dropped between two kept ones. */
  ghost predicate Hole(kept: seq<bool>, k: nat)
    requires k <= |kept|
  {
    exists i, j, l :: 0 <= i < j < l < k && kept[i] && !kept[j] && kept[l]
  }

  lemma {:induction false} NoneBetween(pos: seq<nat>, i: nat, j: nat, x: nat)
    requires i <= j < |pos| && NoGap(pos) && pos[i] <= x <= pos[j]
    ensures x in pos
    decreases j - i
  {
    if x != pos[j] && i < j {
      assert pos[j - 1] + 1 == pos[j];
      NoneBetween(pos, i, j - 1, x);
    }
  }

  lemma MissingBetweenNeighbours(pos: seq<nat>, t: nat, x: nat)
    requires 0 < t < |pos| && pos[t - 1] < x < pos[t]
    requires forall i, j :: 0 <= i < j < |pos| ==> pos[i] < pos[j]
    ensures x !in pos
  {
    forall u | 0 <= u < |pos| ensures pos[u] != x {
      if u < t - 1 { assert pos[u] < pos[t - 1]; }
      if t < u { assert pos[t] < pos[u]; }
    }
  }

  /** The kept positions below `k` have a gap exactly when there is a hole. */
  lemma NoGapIffNoHole(kept: seq<bool>, k: nat, pos: seq<nat>, m: nat)
    requires k <= |kept| && Selects(pos, kept) && m <= |pos|
    requires (forall i :: 0 <= i < m ==> pos[i] < k) && (forall i :: m <= i < |pos| ==> k <= pos[i])
    ensures NoGap(pos[..m]) <==> !Hole(kept, k)
  {
    var front := pos[..m];
    if !NoGap(front) {
      var t :| 0 < t < |front| && front[t] != front[t - 1] + 1;
      MissingBetweenNeighbours(pos, t, pos[t - 1] + 1);
      assert kept[pos[t - 1]] && !kept[pos[t - 1] + 1] && kept[pos[t]];
    }
    if Hole(kept, k) { HoleIsGap(kept, k, pos, m); }
  }

  lemma HoleIsGap(kept: seq<bool>, k: nat, pos: seq<nat>, m: nat)
    requires k <= |kept| && Selects(pos, kept) && m <= |pos| && Hole(kept, k)
    requires forall i :: m <= i < |pos| ==> k <= pos[i]
    ensures !NoGap(pos[..m])
  {
    var front := pos[..m];
    var i, j, l :| 0 <= i < j < l < k && kept[i] && !kept[j] && kept[l];
    var u :| 0 <= u < |pos| && pos[u] == i;
    var v :| 0 <= v < |pos| && pos[v] == l;
    assert u < m && v < m && front[u] == i && front[v] == l;
    if NoGap(front) { NoneBetween(front, u, v, j); }
  }

  /** The indices that are kept, in order. */
  function Positions(kept: seq<bool>): seq<nat> {
    if kept == [] then []
    else Positions(kept[..|kept| - 1]) + if kept[|kept| - 1] then [|kept| - 1] else []
  }

  /** The transactions that are kept, in order. */
  function Filter(txs: seq<Tx>, kept: seq<bool>): seq<Tx>
    requires |txs| == |kept|
  {
    if txs == [] then []
    else
      var n := |txs| - 1;
      Filter(txs[..n], kept[..n]) + if kept[n] then [txs[n]] else []
  }

  lemma FilterSnoc(txs: seq<Tx>, tx: Tx, kept: seq<bool>, keep: bool)
    requires |txs| == |kept|
    ensures Filter(txs + [tx], kept + [keep]) == Filter(txs, kept) + if keep then [tx] else []
  {
    assert (txs + [tx])[..|txs + [tx]| - 1] == txs && (kept + [keep])[..|kept + [keep]| - 1] == kept;
  }

  lemma {:induction false} PositionsAreKept(kept: seq<bool>)
    ensures forall u :: 0 <= u < |Positions(kept)| ==> Positions(kept)[u] < |kept| && kept[Positions(kept)[u]]
    ensures forall i, j :: 0 <= i < j < |Positions(kept)| ==> Positions(kept)[i] < Positions(kept)[j]
  {
    if kept != [] { PositionsAreKept(kept[..|kept| - 1]); }
  }

  lemma {:induction false} KeptHasPosition(kept: seq<bool>, i: nat)
    requires i < |kept| && kept[i]
    ensures i in Positions(kept)
    decreases |kept|
  {
    if i < |kept| - 1 { KeptHasPosition(kept[..|kept| - 1], i); }
  }

  lemma {:induction false} FilterPicks(txs: seq<Tx>, kept: seq<bool>)
    requires |txs| == |kept|
    ensures |Filter(txs, kept)| == |Positions(kept)|
    ensures forall u :: 0 <= u < |Positions(kept)| ==>
                          Positions(kept)[u] < |txs| && Filter(txs, kept)[u] == txs[Positions(kept)[u]]
  {
    if txs != [] { FilterPicks(txs[..|txs| - 1], kept[..|kept| - 1]); }
  }

  /** Splits the picks at the end of the L1 run: what comes before is L1, what comes after is not. */
  lemma SplitPicks(txs: seq<Tx>, k: nat, body: seq<Tx>, pos: seq<nat>) returns (m: nat)
    requires L1Run(txs, k) && Picks(body, txs, pos)
    ensures m <= |body| && Picks(body[..m], txs[..k], pos[..m]) && (forall tx <- body[m..] :: !tx.L1Message?)
    ensures (forall i :: 0 <= i < m ==> pos[i] < k) && (forall i :: m <= i < |pos| ==> k <= pos[i])
  {
    m := 0;
    while m < |pos| && pos[m] < k
      invariant m <= |pos| && forall i :: 0 <= i < m ==> pos[i] < k
    {
      m := m + 1;
    }
    assert forall i :: m <= i < |pos| ==> k <= pos[i];
  }

  lemma FilterIsPicked(txs: seq<Tx>, kept: seq<bool>)
    requires |txs| == |kept|
    ensures Picks(Filter(txs, kept), txs, Positions(kept)) && Selects(Positions(kept), kept)
  {
    PositionsAreKept(kept);
    FilterPicks(txs, kept);
    forall i | 0 <= i < |kept| && kept[i] ensures i in Positions(kept) { KeptHasPosition(kept, i); }
  }

  lemma PickedIsWellOrderedIff(txs: seq<Tx>, k: nat, body: seq<Tx>, pos: seq<nat>, tail: seq<Tx>, m: nat)
    requires L1Run(txs, k) && k <= TWO_64 && m <= |body| == |pos| && Picks(body[..m], txs[..k], pos[..m])
    requires (forall tx <- body[m..] :: !tx.L1Message?) && (forall tx <- tail :: !tx.L1Message?)
    ensures WellOrdered(body + tail) <==> NoGap(pos[..m])
  {
    assert body + tail == body[..m] + (body[m..] + tail);
    WellOrderedIffNoGap(txs, k, body[..m], pos[..m], body[m..] + tail);
  }

  /**
   A list that starts with an L1 run, with some of its transactions dropped and others that are not
   L1 messages appended, is well ordered exactly when no message of the run is dropped between two kept ones.
   */
  lemma DroppedIsWellOrderedIff(txs: seq<Tx>, k: nat, kept: seq<bool>, tail: seq<Tx>)
    requires L1Run(txs, k) && k <= TWO_64 && |kept| == |txs| && forall tx <- tail :: !tx.L1Message?
    ensures WellOrdered(Filter(txs, kept) + tail) <==> !Hole(kept, k)
  {
    var body, pos := Filter(txs, kept), Positions(kept);
    FilterIsPicked(txs, kept);
    var m := SplitPicks(txs, k, body, pos);
    PickedIsWellOrderedIff(txs, k, body, pos, tail, m);
    NoGapIffNoHole(kept, k, pos, m);
  }
}
