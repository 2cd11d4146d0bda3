/** The pool's enforced base fee: the prediction for the last head whose state could be read. */
module PoolBaseFee {
  import opened MachineInts
  import opened BaseFee

  type Hash = nat

  /** What reading a head gives: an error, a header without a base fee, or a header and its overhead slot. */
  datatype HeadRead =
    | Unreadable
    | WithoutBaseFee
    | Readable(parent: Parent, overheadSlot: nat, timestamp: U64)

  /** A readable header is one that consensus accepted. */
  predicate Legal(r: HeadRead) { r.Readable? ==> r.parent.Accepted() }

  /** `next_base_fee`; `None` is a provider error. */
  function NextBaseFeeOf(spec: ChainSpec, r: HeadRead): Option<U64>
    requires Legal(r)
  {
    match r
    case Unreadable => None
    case WithoutBaseFee => Some(0)
    case Readable(parent, slot, timestamp) =>
      Some(PredictNextBaseFee(spec, parent, BaseFeeOverhead(slot), timestamp))
  }

  /** `block_info` of the inner pool; a zero hash means that no head has been applied. */
  datatype BlockInfo = BlockInfo(lastSeen: Hash, pendingBaseFee: U64)

  datatype Head = Head(hash: Hash, read: HeadRead)

  /** `pending_base_fee` and the update of the inner pool with it. */
  function Apply(spec: ChainSpec, info: BlockInfo, h: Head): BlockInfo
    requires Legal(h.read)
  {
    var kept := if info.lastSeen == 0 then MAX_L2_BASE_FEE else info.pendingBaseFee;
    var next := NextBaseFeeOf(spec, h.read);
    BlockInfo(h.hash, if next.Some? then next.value else kept)
  }

  predicate LegalHeads(heads: seq<Head>) { forall h <- heads :: Legal(h.read) }

  function Run(spec: ChainSpec, info: BlockInfo, heads: seq<Head>): BlockInfo
    requires LegalHeads(heads)
  {
    if heads == [] then info else Apply(spec, Run(spec, info, heads[..|heads| - 1]), heads[|heads| - 1])
  }

  predicate LastReadableAt(heads: seq<Head>, i: int) {
    0 <= i < |heads| && !heads[i].read.Unreadable? && forall j :: i < j < |heads| ==> heads[j].read.Unreadable?
  }

  predicate NoneReadable(heads: seq<Head>) { forall h <- heads :: h.read.Unreadable? }

  lemma LastIsSeen(spec: ChainSpec, info: BlockInfo, heads: seq<Head>)
    requires heads != [] && LegalHeads(heads)
    ensures Run(spec, info, heads).lastSeen == heads[|heads| - 1].hash
  {
    assert heads[|heads| - 1] in heads;
  }

  lemma {:induction false} FeeBeforeFirstRead(spec: ChainSpec, info: BlockInfo, heads: seq<Head>)
    requires info.lastSeen == 0 && heads != [] && LegalHeads(heads) && (forall h <- heads :: h.hash != 0)
    requires NoneReadable(heads)
    ensures Run(spec, info, heads).pendingBaseFee == MAX_L2_BASE_FEE
    decreases |heads|
  {
    var n := |heads| - 1;
    assert heads[n] in heads;
    if n > 0 {
      FeeBeforeFirstRead(spec, info, heads[..n]);
      LastIsSeen(spec, info, heads[..n]);
      assert heads[n - 1] in heads;
    } else {
      assert heads[..n] == [];
    }
  }

  lemma {:induction false} FeeAfterRead(spec: ChainSpec, info: BlockInfo, heads: seq<Head>, i: nat)
    requires LegalHeads(heads) && (forall h <- heads :: h.hash != 0) && LastReadableAt(heads, i)
    ensures NextBaseFeeOf(spec, heads[i].read) == Some(Run(spec, info, heads).pendingBaseFee)
    decreases |heads|
  {
    var n := |heads| - 1;
    assert heads[n] in heads;
    if i < n {
      FeeAfterRead(spec, info, heads[..n], i);
      LastIsSeen(spec, info, heads[..n]);
      assert heads[n - 1] in heads;
    }
  }

  /**
   After any nonempty run of readable and unreadable heads on a fresh pool, the enforced fee is the
   prediction for the last readable head, or the protocol cap if there was none.
   */
  lemma EnforcedFee(spec: ChainSpec, info: BlockInfo, heads: seq<Head>)
    requires info.lastSeen == 0 && heads != [] && LegalHeads(heads) && forall h <- heads :: h.hash != 0
    ensures NoneReadable(heads) ==> Run(spec, info, heads).pendingBaseFee == 420_000_000_000_000
    ensures forall i :: LastReadableAt(heads, i) ==>
                          NextBaseFeeOf(spec, heads[i].read) == Some(Run(spec, info, heads).pendingBaseFee)
  {
    if NoneReadable(heads) { FeeBeforeFirstRead(spec, info, heads); }
    forall i | LastReadableAt(heads, i)
      ensures NextBaseFeeOf(spec, heads[i].read) == Some(Run(spec, info, heads).pendingBaseFee)
    {
      FeeAfterRead(spec, info, heads, i);
    }
  }

  /** The two timestamps are on the same side of TsukiV2. */
  predicate SameSide(spec: ChainSpec, a: U64, b: U64) {
    spec.tsukiV2.Some? ==> (a < spec.tsukiV2.value <==> b < spec.tsukiV2.value)
  }

  /**
   The fee enforced after a run is the base-fee rule on the last readable head: on its own fee and gas,
   its state's overhead, where zero means 15,680,000, and the parameters at the earliest child timestamp.
   Every child on the same side of TsukiV2 has exactly this fee. A head without a base fee means zero.
   */
  lemma EnforcedFeeIsTheRules(spec: ChainSpec, info: BlockInfo, heads: seq<Head>, i: nat)
    requires info.lastSeen == 0 && LegalHeads(heads) && (forall h <- heads :: h.hash != 0) && LastReadableAt(heads, i)
    ensures var fee := Run(spec, info, heads).pendingBaseFee;
            match heads[i].read
            case Unreadable => false
            case WithoutBaseFee => fee == 0
            case Readable(parent, slot, timestamp) =>
              heads[i] in heads
              && var overhead: U64 := if slot == 0 then 15_680_000 else if slot < TWO_64 then slot else U64_MAX;
                 var child: U64 := if timestamp < U64_MAX then timestamp + 1 else U64_MAX;
                 && fee == (if spec.tsukiV2.Some? && spec.tsukiV2.value <= child
                            then PlainFee(parent, overhead, 48, 10, 420_000_000_000_000)
                            else PlainFee(parent, overhead, 8, 2, 10_000_000_000))
                 && forall t: U64 :: SameSide(spec, t, child) ==> NextBaseFee(spec, parent, overhead, t) == fee
  {
    assert heads[i] in heads;
    FeeAfterRead(spec, info, heads, i);
    if heads[i].read.Readable? {
      RuleAtChild(spec, heads[i].read.parent, heads[i].read.overheadSlot, heads[i].read.timestamp);
    }
  }

  lemma RuleAtChild(spec: ChainSpec, parent: Parent, slot: nat, timestamp: U64)
    requires parent.Accepted()
    ensures var overhead: U64 := if slot == 0 then 15_680_000 else if slot < TWO_64 then slot else U64_MAX;
            var child: U64 := if timestamp < U64_MAX then timestamp + 1 else U64_MAX;
            var fee := PredictNextBaseFee(spec, parent, BaseFeeOverhead(slot), timestamp);
            && fee == (if spec.tsukiV2.Some? && spec.tsukiV2.value <= child
                       then PlainFee(parent, overhead, 48, 10, 420_000_000_000_000)
                       else PlainFee(parent, overhead, 8, 2, 10_000_000_000))
            && forall t: U64 :: SameSide(spec, t, child) ==> NextBaseFee(spec, parent, overhead, t) == fee
  {
    var child: U64 := if timestamp < U64_MAX then timestamp + 1 else U64_MAX;
    FeeByFork(spec, parent, BaseFeeOverhead(slot), child);
    forall t: U64 | SameSide(spec, t, child)
      ensures NextBaseFee(spec, parent, BaseFeeOverhead(slot), t)
              == NextBaseFee(spec, parent, BaseFeeOverhead(slot), child)
    {
      FeeByFork(spec, parent, BaseFeeOverhead(slot), t);
    }
  }

  lemma {:induction false} FeeIsCapped(spec: ChainSpec, info: BlockInfo, heads: seq<Head>)
    requires info.pendingBaseFee <= MAX_L2_BASE_FEE && LegalHeads(heads)
    ensures Run(spec, info, heads).pendingBaseFee <= MAX_L2_BASE_FEE
  {
    if heads != [] {
      var n := |heads| - 1;
      FeeIsCapped(spec, info, heads[..n]);
      assert heads[n] in heads;
      match heads[n].read
      case Readable(parent, slot, timestamp) =>
        NextBaseFeeBounds(spec, parent, BaseFeeOverhead(slot), SatAdd(timestamp, 1));
      case _ =>
    }
  }

  /** A head that cannot be read never lowers the fee, whatever hash was applied before. */
  lemma FailedReadNeverLowers(spec: ChainSpec, info: BlockInfo, heads: seq<Head>, hash: Hash)
    requires info.pendingBaseFee <= MAX_L2_BASE_FEE && LegalHeads(heads)
    ensures Run(spec, info, heads).pendingBaseFee
            <= Apply(spec, Run(spec, info, heads), Head(hash, Unreadable)).pendingBaseFee
  {
    FeeIsCapped(spec, info, heads);
  }

  /** Until a head has been read the enforced fee is at least the fee of any block consensus can accept. */
  lemma UnreadFeeCoversEveryBlock(spec: ChainSpec, info: BlockInfo, heads: seq<Head>, parent: Parent,
                                  overhead: U64, timestamp: U64)
    requires info.lastSeen == 0 && heads != [] && NoneReadable(heads) && forall h <- heads :: h.hash != 0
    requires parent.Accepted()
    ensures NextBaseFee(spec, parent, overhead, timestamp) <= Run(spec, info, heads).pendingBaseFee
  {
    EnforcedFee(spec, info, heads);
    NextBaseFeeBounds(spec, parent, overhead, timestamp);
  }

  class DogeosPoolMaintenance {
    const spec: ChainSpec
    var lastSeen: Hash
    var pendingBaseFee: U64

    function View(): BlockInfo
      reads this
    {
      BlockInfo(lastSeen, pendingBaseFee)
    }

    constructor (spec: ChainSpec, pendingBaseFee: U64)
      ensures this.spec == spec && View() == BlockInfo(0, pendingBaseFee)
    {
      this.spec, lastSeen, this.pendingBaseFee := spec, 0, pendingBaseFee;
    }

    method PendingBaseFee(read: HeadRead) returns (fee: U64)
      requires Legal(read)
      ensures forall hash :: Apply(spec, View(), Head(hash, read)) == BlockInfo(hash, fee)
    {
      match read
      case Unreadable => return if lastSeen == 0 then MAX_L2_BASE_FEE else pendingBaseFee;
      case WithoutBaseFee => return 0;
      case Readable(parent, slot, timestamp) =>
        return PredictNextBaseFee(spec, parent, BaseFeeOverhead(slot), timestamp);
    }

    /** `set_block_info`: the caller's fee is replaced. */
    method SetBlockInfo(hash: Hash, read: HeadRead)
      requires Legal(read)
      modifies this
      ensures View() == Apply(spec, old(View()), Head(hash, read))
    {
      var fee := PendingBaseFee(read);
      lastSeen, pendingBaseFee := hash, fee;
    }

    /** `on_canonical_state_change`, on a list of new tips. */
    method OnCanonicalStateChanges(heads: seq<Head>)
      requires LegalHeads(heads)
      modifies this
      ensures View() == Run(spec, old(View()), heads)
    {
      for i := 0 to |heads|
        invariant View() == Run(spec, old(View()), heads[..i])
      {
        assert heads[..i + 1][..i] == heads[..i];
        SetBlockInfo(heads[i].hash, heads[i].read);
      }
      assert heads[..|heads|] == heads;
    }
  }
}
