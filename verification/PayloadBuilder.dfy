/**
 Building a payload: the forced transactions, then the pool's, under limits on gas, EIP-2718 bytes
 and code bytes. The builder keeps its own running totals beside the executor's. The pool iterator
 is any sequence of candidates; cancellation and the time limit may strike at any of them.
 */
module PayloadBuilder {
  import opened MachineInts
  import opened Transaction
  import opened BlockExecutor
  import opened DraftBlock
  import CW = CodeWitness
  import L1Order

  const MIN_TRANSACTION_GAS: U64 := 21000
  const MIN_TRANSACTION_DATA_SIZE: U64 := 115

  datatype Config = Config(gasLimit: Option<U64>, maxDa: Option<U64>, maxCodeBytes: U64)

  /** `ExecutionInfo`: the builder's running totals. */
  datatype Totals = Totals(gas: U64, da: U64, fees: nat)

  datatype ForcedTx = ForcedTx(tx: Tx, recoverable: bool)

  /** A pool candidate, its tip, and whether the job is cancelled or out of time when it is looked at. */
  datatype Candidate = Candidate(tx: Tx, tip: nat, cancelled: bool, timeUp: bool)

  datatype BuildError =
    | PreExecutionFailed(cause: ExecError)
    | SystemCodeLimit(limit: U64)
    | ForcedDecodeFailed
    | ForcedDaLimit(bytes: U64, limit: U64)
    | BlobRejected
    | EcRecoverFailed
    | ForcedGasLimit(spent: seq<U64>, gas: U64)
    | ForcedCodeLimit(limit: U64)
    | EvmError(cause: ExecError)
    | FinishFailed

  datatype Stop = Break | Cancel | Fail(error: BuildError)

  datatype Progress = Progress(draft: Draft, totals: Totals, forcedGas: seq<U64>, marked: seq<Tx>, stop: Option<Stop>)

  function Record(t: Totals, tx: Tx, gasUsed: U64, fee: nat): Totals {
    Totals(WrapAdd(t.gas, gasUsed), WrapAdd(t.da, tx.encodedLength), t.fees + fee)
  }

  /** `is_tx_over_limits`. */
  predicate OverLimits(t: Totals, tx: Tx, blockGasLimit: U64, maxDa: Option<U64>) {
    (maxDa.Some? && SatAdd(t.da, tx.encodedLength) > maxDa.value) || SatAdd(t.gas, tx.gasLimit) > blockGasLimit
  }

  /** `PayloadBuildingBreaker::should_break`. */
  predicate ShouldBreak(cfg: Config, t: Totals, timeUp: bool) {
    || timeUp
    || (cfg.gasLimit.Some? && t.gas > SatSub(cfg.gasLimit.value, MIN_TRANSACTION_GAS))
    || (cfg.maxDa.Some? && t.da > SatSub(cfg.maxDa.value, MIN_TRANSACTION_DATA_SIZE))
  }

  function ForcedStep(p: Progress, cfg: Config, env: BlockEnv, evm: Evm, f: ForcedTx): Progress {
    if p.stop.Some? then p
    else if f.tx.Blob? then p.(stop := Some(Fail(BlobRejected)))
    else if !f.recoverable then p.(stop := Some(Fail(EcRecoverFailed)))
    else if SatAdd(p.totals.gas, f.tx.gasLimit) > env.gasLimit then
      var spent := p.forcedGas + [f.tx.gasLimit];
      p.(forcedGas := spent, stop := Some(Fail(ForcedGasLimit(spent, env.gasLimit))))
    else
      var (d, r) := Try(p.draft, env, evm, f.tx);
      match r
      case Ok(Some(used)) =>
        p.(draft := d, totals := Record(p.totals, f.tx, used, 0), forcedGas := p.forcedGas + [used])
      case Ok(None) => p.(draft := d, stop := Some(Fail(ForcedCodeLimit(cfg.maxCodeBytes))))
      case Err(InvalidTx(_)) => p.(draft := d)
      case Err(e) => p.(draft := d, stop := Some(Fail(EvmError(e))))
  }

  function PoolStep(p: Progress, cfg: Config, env: BlockEnv, evm: Evm, c: Candidate): Progress {
    if p.stop.Some? then p
    else if OverLimits(p.totals, c.tx, env.gasLimit, cfg.maxDa) || c.tx.Blob? || c.tx.L1Message? then
      p.(marked := p.marked + [c.tx])
    else if c.cancelled then p.(stop := Some(Cancel))
    else if ShouldBreak(cfg, p.totals, c.timeUp) then p.(stop := Some(Break))
    else
      var (d, r) := Try(p.draft, env, evm, c.tx);
      match r
      case Ok(Some(used)) => p.(draft := d, totals := Record(p.totals, c.tx, used, c.tip * used))
      case Ok(None) => p.(draft := d, marked := p.marked + [c.tx])
      case Err(InvalidTx(low)) => p.(draft := d, marked := p.marked + if low then [] else [c.tx])
      case Err(e) => p.(draft := d, stop := Some(Fail(EvmError(e))))
  }

  function RunForced(p: Progress, cfg: Config, env: BlockEnv, evm: Evm, forced: seq<ForcedTx>): Progress {
    if forced == [] then p
    else ForcedStep(RunForced(p, cfg, env, evm, forced[..|forced| - 1]), cfg, env, evm, forced[|forced| - 1])
  }

  function RunPool(p: Progress, cfg: Config, env: BlockEnv, evm: Evm, pool: seq<Candidate>): Progress {
    if pool == [] then p
    else PoolStep(RunPool(p, cfg, env, evm, pool[..|pool| - 1]), cfg, env, evm, pool[|pool| - 1])
  }

  /** Once stopped, the rest of a list is not looked at. */
  lemma {:induction false} StoppedForced(p: Progress, cfg: Config, env: BlockEnv, evm: Evm,
                                         forced: seq<ForcedTx>, i: nat)
    requires i <= |forced| && RunForced(p, cfg, env, evm, forced[..i]).stop.Some?
    ensures RunForced(p, cfg, env, evm, forced) == RunForced(p, cfg, env, evm, forced[..i])
    decreases |forced|
  {
    if i < |forced| {
      assert forced[..|forced| - 1][..i] == forced[..i];
      StoppedForced(p, cfg, env, evm, forced[..|forced| - 1], i);
    } else {
      assert forced[..i] == forced;
    }
  }

  lemma {:induction false} StoppedPool(p: Progress, cfg: Config, env: BlockEnv, evm: Evm, pool: seq<Candidate>, i: nat)
    requires i <= |pool| && RunPool(p, cfg, env, evm, pool[..i]).stop.Some?
    ensures RunPool(p, cfg, env, evm, pool) == RunPool(p, cfg, env, evm, pool[..i])
    decreases |pool|
  {
    if i < |pool| {
      assert pool[..|pool| - 1][..i] == pool[..i];
      StoppedPool(p, cfg, env, evm, pool[..|pool| - 1], i);
    } else {
      assert pool[..i] == pool;
    }
  }

  // ----- The totals and the executor -----------------------------------------------------------------------

  /** The builder's totals are the executor's gas and the bytes of the transaction list. */
  predicate TotalsAgree(p: Progress) {
    p.totals.gas == p.draft.exec.gasUsed && p.totals.da == TruncU64(LengthOf(p.draft.body))
  }

  /** A step either leaves the draft alone or tries one transaction that the builder's gas guard let through. */
  ghost predicate Tries(p: Progress, q: Progress, env: BlockEnv, evm: Evm, tx: Tx) {
    || (q.draft == p.draft && q.totals == p.totals)
    || (&& SatAdd(p.totals.gas, tx.gasLimit) <= env.gasLimit
        && q.draft == Try(p.draft, env, evm, tx).0
        && match Try(p.draft, env, evm, tx).1
           case Ok(Some(used)) => exists fee :: q.totals == Record(p.totals, tx, used, fee)
           case _ => q.totals == p.totals)
  }

  lemma ForcedStepTries(p: Progress, cfg: Config, env: BlockEnv, evm: Evm, f: ForcedTx)
    ensures Tries(p, ForcedStep(p, cfg, env, evm, f), env, evm, f.tx)
  {
    var r := Try(p.draft, env, evm, f.tx).1;
    if Kept(r) { var t := Record(p.totals, f.tx, r.value.value, 0); }
  }

  lemma PoolStepTries(p: Progress, cfg: Config, env: BlockEnv, evm: Evm, c: Candidate)
    ensures Tries(p, PoolStep(p, cfg, env, evm, c), env, evm, c.tx)
  {
    var r := Try(p.draft, env, evm, c.tx).1;
    if Kept(r) { var t := Record(p.totals, c.tx, r.value.value, c.tip * r.value.value); }
  }

  lemma WrapAddTruncates(a: nat, b: U64)
    ensures WrapAdd(TruncU64(a), b) == TruncU64(a + b)
  {
  }

  /** Everything a progress point keeps, from the prepared draft `start` on. */
  ghost predicate Good(p: Progress, start: Draft, env: BlockEnv, evm: Evm, size: CW.Hash -> U64) {
    && Sane(p.draft, env, size) && TotalsAgree(p)
    && p.draft.meter.maxCodeBytes == start.meter.maxCodeBytes && p.draft.meter.maxSteps == start.meter.maxSteps
    && Reexecutes(start, env, evm, p.draft) && Replays(start, env, evm, p.draft) && Records(start, env, evm, p.draft)
  }

  lemma TryKeepsBudget(d: Draft, env: BlockEnv, evm: Evm, tx: Tx)
    ensures Try(d, env, evm, tx).0.meter.maxCodeBytes == d.meter.maxCodeBytes
    ensures Try(d, env, evm, tx).0.meter.maxSteps == d.meter.maxSteps
  {
    var seen := SeenBy(Execute(d.exec, env, evm, tx, None).1);
    RunOpsKeepsBlock(d.meter.Reset(), seen);
    var m := CW.RunOps(d.meter.Reset(), seen);
    assert m.maxCodeBytes == m.Reset().maxCodeBytes && m.maxSteps == m.Reset().maxSteps;
  }

  lemma TotalsStep(p: Progress, q: Progress, env: BlockEnv, evm: Evm, tx: Tx, size: CW.Hash -> U64)
    requires Sound(evm) && Sane(p.draft, env, size) && TotalsAgree(p) && Tries(p, q, env, evm, tx)
    ensures TotalsAgree(q)
  {
    if q.draft != p.draft {
      if Kept(Try(p.draft, env, evm, tx).1) {
        KeptAdds(p.draft, env, evm, tx, size);
        LengthOfSnoc(p.draft.body, tx);
        WrapAddTruncates(LengthOf(p.draft.body), tx.encodedLength);
      } else {
        RejectionLeavesNoTrace(p.draft, env, evm, tx);
        assert Visible(q.draft).body == Visible(p.draft).body
               && Visible(q.draft).exec.gasUsed == Visible(p.draft).exec.gasUsed;
      }
    }
  }

  lemma GoodStep(p: Progress, q: Progress, start: Draft, env: BlockEnv, evm: Evm, tx: Tx, size: CW.Hash -> U64)
    requires Sound(evm) && ConsistentCode(evm, size) && Good(p, start, env, evm, size) && Tries(p, q, env, evm, tx)
    ensures Good(q, start, env, evm, size)
  {
    TotalsStep(p, q, env, evm, tx, size);
    TryKeepsSane(p.draft, env, evm, tx, size);
    TryKeepsBudget(p.draft, env, evm, tx);
    ReexecutesStep(start, env, evm, p.draft, tx);
    RecordsStep(start, env, evm, p.draft, tx);
    ReplaysStep(start, env, evm, p.draft, tx);
  }

  lemma {:induction false} ForcedIsGood(p: Progress, start: Draft, cfg: Config, env: BlockEnv, evm: Evm,
                                        forced: seq<ForcedTx>, size: CW.Hash -> U64)
    requires Sound(evm) && ConsistentCode(evm, size) && Good(p, start, env, evm, size)
    ensures Good(RunForced(p, cfg, env, evm, forced), start, env, evm, size)
  {
    if forced != [] {
      var n := |forced| - 1;
      var q := RunForced(p, cfg, env, evm, forced[..n]);
      ForcedIsGood(p, start, cfg, env, evm, forced[..n], size);
      ForcedStepTries(q, cfg, env, evm, forced[n]);
      GoodStep(q, ForcedStep(q, cfg, env, evm, forced[n]), start, env, evm, forced[n].tx, size);
    }
  }

  lemma {:induction false} PoolIsGood(p: Progress, start: Draft, cfg: Config, env: BlockEnv, evm: Evm,
                                      pool: seq<Candidate>, size: CW.Hash -> U64)
    requires Sound(evm) && ConsistentCode(evm, size) && Good(p, start, env, evm, size)
    ensures Good(RunPool(p, cfg, env, evm, pool), start, env, evm, size)
  {
    if pool != [] {
      var n := |pool| - 1;
      var q := RunPool(p, cfg, env, evm, pool[..n]);
      PoolIsGood(p, start, cfg, env, evm, pool[..n], size);
      PoolStepTries(q, cfg, env, evm, pool[n]);
      GoodStep(q, PoolStep(q, cfg, env, evm, pool[n]), start, env, evm, pool[n].tx, size);
    }
  }

  /**
   The executor's own gas check agrees with the builder's guard, except at a block gas limit of
   2^64 - 1, where the guard's saturating sum can never exceed the limit.
   */
  lemma ExecutorGasCheckIsRedundant(p: Progress, env: BlockEnv, evm: Evm, tx: Tx, size: CW.Hash -> U64)
    requires Sane(p.draft, env, size) && TotalsAgree(p) && SatAdd(p.totals.gas, tx.gasLimit) <= env.gasLimit
    ensures p.draft.exec.gasUsed <= env.gasLimit
    ensures (Execute(p.draft.exec, env, evm, tx, None).1.Err?
             && Execute(p.draft.exec, env, evm, tx, None).1.error.GasLimitMoreThanAvailable?)
            <==> env.gasLimit == U64_MAX && p.totals.gas + tx.gasLimit > U64_MAX
  {
  }

  // ----- When the executor does refuse for gas ------------------------------------------------------------------

  predicate GasFailure(p: Progress) {
    p.stop.Some? && p.stop.value.Fail? && p.stop.value.error.EvmError?
    && p.stop.value.error.cause.GasLimitMoreThanAvailable?
  }

  /** The forced loop reaches its i-th transaction, and running gas plus its gas limit passes 2^64 - 1. */
  predicate ForcedOverflows(p: Progress, cfg: Config, env: BlockEnv, evm: Evm, forced: seq<ForcedTx>, i: nat)
    requires i < |forced|
  {
    var q := RunForced(p, cfg, env, evm, forced[..i]);
    && q.stop.None? && !forced[i].tx.Blob? && forced[i].recoverable
    && q.totals.gas + forced[i].tx.gasLimit > U64_MAX
  }

  /** The pool loop reaches its i-th candidate, would run it, and the sum passes 2^64 - 1. */
  predicate PoolOverflows(p: Progress, cfg: Config, env: BlockEnv, evm: Evm, pool: seq<Candidate>, i: nat)
    requires i < |pool|
  {
    var q, c := RunPool(p, cfg, env, evm, pool[..i]), pool[i];
    && q.stop.None? && !OverLimits(q.totals, c.tx, env.gasLimit, cfg.maxDa) && !c.tx.Blob? && !c.tx.L1Message?
    && !c.cancelled && !ShouldBreak(cfg, q.totals, c.timeUp)
    && q.totals.gas + c.tx.gasLimit > U64_MAX
  }

  lemma TryRefusesForGas(p: Progress, env: BlockEnv, evm: Evm, tx: Tx, size: CW.Hash -> U64)
    requires Sane(p.draft, env, size) && TotalsAgree(p) && SatAdd(p.totals.gas, tx.gasLimit) <= env.gasLimit
    ensures var r := Try(p.draft, env, evm, tx).1;
            (r.Err? && r.error.GasLimitMoreThanAvailable?)
            <==> env.gasLimit == U64_MAX && p.totals.gas + tx.gasLimit > U64_MAX
  {
    ExecutorGasCheckIsRedundant(p, env, evm, tx, size);
  }

  lemma ForcedStepGasFailure(p: Progress, cfg: Config, env: BlockEnv, evm: Evm, f: ForcedTx, size: CW.Hash -> U64)
    requires Sane(p.draft, env, size) && TotalsAgree(p) && p.stop.None?
    ensures GasFailure(ForcedStep(p, cfg, env, evm, f))
            <==> && env.gasLimit == U64_MAX && !f.tx.Blob? && f.recoverable
                 && p.totals.gas + f.tx.gasLimit > U64_MAX
  {
    if SatAdd(p.totals.gas, f.tx.gasLimit) <= env.gasLimit { TryRefusesForGas(p, env, evm, f.tx, size); }
  }

  lemma PoolStepGasFailure(p: Progress, cfg: Config, env: BlockEnv, evm: Evm, c: Candidate, size: CW.Hash -> U64)
    requires Sane(p.draft, env, size) && TotalsAgree(p) && p.stop.None?
    ensures GasFailure(PoolStep(p, cfg, env, evm, c))
            <==> && env.gasLimit == U64_MAX && !OverLimits(p.totals, c.tx, env.gasLimit, cfg.maxDa)
                 && !c.tx.Blob? && !c.tx.L1Message? && !c.cancelled && !ShouldBreak(cfg, p.totals, c.timeUp)
                 && p.totals.gas + c.tx.gasLimit > U64_MAX
  {
    if !OverLimits(p.totals, c.tx, env.gasLimit, cfg.maxDa) { TryRefusesForGas(p, env, evm, c.tx, size); }
  }

  ghost predicate SomeForcedOverflows(p: Progress, cfg: Config, env: BlockEnv, evm: Evm, forced: seq<ForcedTx>) {
    exists i :: 0 <= i < |forced| && ForcedOverflows(p, cfg, env, evm, forced, i)
  }

  ghost predicate SomePoolOverflows(p: Progress, cfg: Config, env: BlockEnv, evm: Evm, pool: seq<Candidate>) {
    exists i :: 0 <= i < |pool| && PoolOverflows(p, cfg, env, evm, pool, i)
  }

  lemma ForcedOverflowsSnoc(p: Progress, cfg: Config, env: BlockEnv, evm: Evm, forced: seq<ForcedTx>)
    requires forced != []
    ensures SomeForcedOverflows(p, cfg, env, evm, forced)
            <==> SomeForcedOverflows(p, cfg, env, evm, forced[..|forced| - 1])
                 || ForcedOverflows(p, cfg, env, evm, forced, |forced| - 1)
  {
    var n := |forced| - 1;
    forall i | 0 <= i < n
      ensures ForcedOverflows(p, cfg, env, evm, forced[..n], i) == ForcedOverflows(p, cfg, env, evm, forced, i)
    {
      assert forced[..n][..i] == forced[..i];
    }
  }

  lemma PoolOverflowsSnoc(p: Progress, cfg: Config, env: BlockEnv, evm: Evm, pool: seq<Candidate>)
    requires pool != []
    ensures SomePoolOverflows(p, cfg, env, evm, pool)
            <==> SomePoolOverflows(p, cfg, env, evm, pool[..|pool| - 1])
                 || PoolOverflows(p, cfg, env, evm, pool, |pool| - 1)
  {
    var n := |pool| - 1;
    forall i | 0 <= i < n
      ensures PoolOverflows(p, cfg, env, evm, pool[..n], i) == PoolOverflows(p, cfg, env, evm, pool, i)
    {
      assert pool[..n][..i] == pool[..i];
    }
  }

  /** The forced loop ends in a gas refusal exactly at a limit of 2^64 - 1 with a sum that passes it. */
  lemma {:induction false} ForcedGasFailureIff(p: Progress, start: Draft, cfg: Config, env: BlockEnv, evm: Evm,
                                               forced: seq<ForcedTx>, size: CW.Hash -> U64)
    requires Sound(evm) && ConsistentCode(evm, size) && Good(p, start, env, evm, size) && p.stop.None?
    ensures GasFailure(RunForced(p, cfg, env, evm, forced))
            <==> env.gasLimit == U64_MAX && SomeForcedOverflows(p, cfg, env, evm, forced)
    decreases |forced|
  {
    if forced != [] {
      var n := |forced| - 1;
      var q := RunForced(p, cfg, env, evm, forced[..n]);
      ForcedGasFailureIff(p, start, cfg, env, evm, forced[..n], size);
      ForcedIsGood(p, start, cfg, env, evm, forced[..n], size);
      ForcedOverflowsSnoc(p, cfg, env, evm, forced);
      if q.stop.None? { ForcedStepGasFailure(q, cfg, env, evm, forced[n], size); }
    }
  }

  lemma {:induction false} PoolGasFailureIff(p: Progress, start: Draft, cfg: Config, env: BlockEnv, evm: Evm,
                                             pool: seq<Candidate>, size: CW.Hash -> U64)
    requires Sound(evm) && ConsistentCode(evm, size) && Good(p, start, env, evm, size) && p.stop.None?
    ensures GasFailure(RunPool(p, cfg, env, evm, pool))
            <==> env.gasLimit == U64_MAX && SomePoolOverflows(p, cfg, env, evm, pool)
    decreases |pool|
  {
    if pool != [] {
      var n := |pool| - 1;
      var q := RunPool(p, cfg, env, evm, pool[..n]);
      PoolGasFailureIff(p, start, cfg, env, evm, pool[..n], size);
      PoolIsGood(p, start, cfg, env, evm, pool[..n], size);
      PoolOverflowsSnoc(p, cfg, env, evm, pool);
      if q.stop.None? { PoolStepGasFailure(q, cfg, env, evm, pool[n], size); }
    }
  }

  // ----- The state hook -----------------------------------------------------------------------------------------

  lemma StepFollows(x: Exec, p: Progress, q: Progress, env: BlockEnv, evm: Evm, tx: Tx)
    requires Follows(x, p.draft.exec) && Tries(p, q, env, evm, tx)
    ensures Follows(x, q.draft.exec)
  {
    TryFollows(x, p.draft, env, evm, tx);
  }

  lemma {:induction false} ForcedFollows(x: Exec, p: Progress, cfg: Config, env: BlockEnv, evm: Evm,
                                         forced: seq<ForcedTx>)
    requires Follows(x, p.draft.exec)
    ensures Follows(x, RunForced(p, cfg, env, evm, forced).draft.exec)
  {
    if forced != [] {
      var n := |forced| - 1;
      var q := RunForced(p, cfg, env, evm, forced[..n]);
      ForcedFollows(x, p, cfg, env, evm, forced[..n]);
      ForcedStepTries(q, cfg, env, evm, forced[n]);
      StepFollows(x, q, ForcedStep(q, cfg, env, evm, forced[n]), env, evm, forced[n].tx);
    }
  }

  lemma {:induction false} PoolFollows(x: Exec, p: Progress, cfg: Config, env: BlockEnv, evm: Evm, pool: seq<Candidate>)
    requires Follows(x, p.draft.exec)
    ensures Follows(x, RunPool(p, cfg, env, evm, pool).draft.exec)
  {
    if pool != [] {
      var n := |pool| - 1;
      var q := RunPool(p, cfg, env, evm, pool[..n]);
      PoolFollows(x, p, cfg, env, evm, pool[..n]);
      PoolStepTries(q, cfg, env, evm, pool[n]);
      StepFollows(x, q, PoolStep(q, cfg, env, evm, pool[n]), env, evm, pool[n].tx);
    }
  }

  // ----- EIP-2718 bytes -------------------------------------------------------------------------------------------

  function TxsOf(forced: seq<ForcedTx>): (txs: seq<Tx>)
    ensures |txs| == |forced| && forall i :: 0 <= i < |txs| ==> txs[i] == forced[i].tx
  {
    seq(|forced|, i requires 0 <= i < |forced| => forced[i].tx)
  }

  /** `forced_transactions_da_bytes`. */
  function ForcedDaBytes(forced: seq<ForcedTx>): U64 {
    if forced == [] then 0
    else SatAdd(ForcedDaBytes(forced[..|forced| - 1]), forced[|forced| - 1].tx.encodedLength)
  }

  lemma {:induction false} ForcedDaBytesIsSaturatedSum(forced: seq<ForcedTx>)
    ensures ForcedDaBytes(forced) == Min(LengthOf(TxsOf(forced)), U64_MAX)
  {
    if forced != [] {
      ForcedDaBytesIsSaturatedSum(forced[..|forced| - 1]);
      assert TxsOf(forced)[..|forced| - 1] == TxsOf(forced[..|forced| - 1]);
    }
  }

  /**
   Both byte tests compare exact sums, except at a limit of 2^64 - 1, which the saturating sums never
   exceed: there a transaction, or a forced list, that takes the block past the limit is let through.
   */
  lemma ByteTestsIff(t: Totals, tx: Tx, forced: seq<ForcedTx>, limit: U64)
    ensures SatAdd(t.da, tx.encodedLength) > limit <==> t.da + tx.encodedLength > limit && limit < U64_MAX
    ensures ForcedDaBytes(forced) > limit <==> LengthOf(TxsOf(forced)) > limit && limit < U64_MAX
  {
    ForcedDaBytesIsSaturatedSum(forced);
  }

  predicate WithinDa(body: seq<Tx>, cfg: Config) {
    cfg.maxDa.Some? && cfg.maxDa.value < U64_MAX ==> LengthOf(body) <= cfg.maxDa.value
  }

  lemma DraftStep(p: Progress, q: Progress, env: BlockEnv, evm: Evm, tx: Tx)
    requires Tries(p, q, env, evm, tx)
    ensures q.draft.body == p.draft.body
            || (q.draft.body == p.draft.body + [tx] && Kept(Try(p.draft, env, evm, tx).1) && q.draft != p.draft)
  {
    if !Kept(Try(p.draft, env, evm, tx).1) {
      RejectionLeavesNoTrace(p.draft, env, evm, tx);
      assert Visible(Try(p.draft, env, evm, tx).0).body == Visible(p.draft).body;
    }
  }

  lemma BodyGrowsByOne(p: Progress, q: Progress, env: BlockEnv, evm: Evm, tx: Tx, bound: nat)
    requires Tries(p, q, env, evm, tx) && LengthOf(p.draft.body) <= bound
    ensures LengthOf(q.draft.body) <= bound + tx.encodedLength
  {
    DraftStep(p, q, env, evm, tx);
    LengthOfSnoc(p.draft.body, tx);
  }

  lemma TxsOfSnoc(forced: seq<ForcedTx>)
    requires forced != []
    ensures LengthOf(TxsOf(forced)) == LengthOf(TxsOf(forced[..|forced| - 1])) + forced[|forced| - 1].tx.encodedLength
  {
    assert TxsOf(forced)[..|forced| - 1] == TxsOf(forced[..|forced| - 1]);
  }

  lemma {:induction false} ForcedBodyIsNoLonger(p: Progress, cfg: Config, env: BlockEnv, evm: Evm,
                                                forced: seq<ForcedTx>)
    requires p.draft.body == []
    ensures LengthOf(RunForced(p, cfg, env, evm, forced).draft.body) <= LengthOf(TxsOf(forced))
  {
    if forced != [] {
      var n := |forced| - 1;
      var q := RunForced(p, cfg, env, evm, forced[..n]);
      ForcedBodyIsNoLonger(p, cfg, env, evm, forced[..n]);
      ForcedStepTries(q, cfg, env, evm, forced[n]);
      TxsOfSnoc(forced);
      BodyGrowsByOne(q, ForcedStep(q, cfg, env, evm, forced[n]), env, evm, forced[n].tx, LengthOf(TxsOf(forced[..n])));
    }
  }

  lemma PoolStepWithinDa(p: Progress, cfg: Config, env: BlockEnv, evm: Evm, c: Candidate)
    requires WithinDa(p.draft.body, cfg) && TotalsAgree(p)
    ensures WithinDa(PoolStep(p, cfg, env, evm, c).draft.body, cfg)
  {
    PoolStepTries(p, cfg, env, evm, c);
    DraftStep(p, PoolStep(p, cfg, env, evm, c), env, evm, c.tx);
    LengthOfSnoc(p.draft.body, c.tx);
  }

  lemma {:induction false} PoolWithinDa(p: Progress, start: Draft, cfg: Config, env: BlockEnv, evm: Evm,
                                        pool: seq<Candidate>, size: CW.Hash -> U64)
    requires Sound(evm) && ConsistentCode(evm, size) && Good(p, start, env, evm, size) && WithinDa(p.draft.body, cfg)
    ensures WithinDa(RunPool(p, cfg, env, evm, pool).draft.body, cfg)
  {
    if pool != [] {
      var n := |pool| - 1;
      PoolWithinDa(p, start, cfg, env, evm, pool[..n], size);
      PoolIsGood(p, start, cfg, env, evm, pool[..n], size);
      PoolStepWithinDa(RunPool(p, cfg, env, evm, pool[..n]), cfg, env, evm, pool[n]);
    }
  }

  // ----- The order of L1 messages --------------------------------------------------------------------------------

  /** The verdict on the i-th forced transaction, in the draft its predecessors left. */
  function VerdictAt(p: Progress, cfg: Config, env: BlockEnv, evm: Evm, forced: seq<ForcedTx>, i: nat): TryResult
    requires i < |forced|
  {
    Try(RunForced(p, cfg, env, evm, forced[..i]).draft, env, evm, forced[i].tx).1
  }

  predicate KeptAt(p: Progress, cfg: Config, env: BlockEnv, evm: Evm, forced: seq<ForcedTx>, i: nat)
    requires i < |forced|
  {
    Kept(VerdictAt(p, cfg, env, evm, forced, i))
  }

  /** The branch that silently drops a forced transaction. */
  predicate SkippedAt(p: Progress, cfg: Config, env: BlockEnv, evm: Evm, forced: seq<ForcedTx>, i: nat)
    requires i < |forced|
  {
    VerdictAt(p, cfg, env, evm, forced, i).Err? && VerdictAt(p, cfg, env, evm, forced, i).error.InvalidTx?
  }

  /** In a loop that was not stopped, each forced transaction was kept or silently dropped, and added or not. */
  lemma ForcedStepVerdict(p: Progress, cfg: Config, env: BlockEnv, evm: Evm, f: ForcedTx)
    requires ForcedStep(p, cfg, env, evm, f).stop.None?
    ensures p.stop.None?
    ensures var r := Try(p.draft, env, evm, f.tx).1;
            var body := ForcedStep(p, cfg, env, evm, f).draft.body;
            (Kept(r) && body == p.draft.body + [f.tx])
            || (r.Err? && r.error.InvalidTx? && body == p.draft.body)
  {
    ForcedStepTries(p, cfg, env, evm, f);
    DraftStep(p, ForcedStep(p, cfg, env, evm, f), env, evm, f.tx);
    if p.stop.None? && Kept(Try(p.draft, env, evm, f.tx).1) {
      assert ForcedStep(p, cfg, env, evm, f).draft == Try(p.draft, env, evm, f.tx).0;
    }
  }

  /** Which forced transactions were kept. */
  function KeptFlags(p: Progress, cfg: Config, env: BlockEnv, evm: Evm, forced: seq<ForcedTx>): (kept: seq<bool>)
    ensures |kept| == |forced|
  {
    if forced == [] then []
    else KeptFlags(p, cfg, env, evm, forced[..|forced| - 1]) + [KeptAt(p, cfg, env, evm, forced, |forced| - 1)]
  }

  lemma KeptOrSkipped(p: Progress, cfg: Config, env: BlockEnv, evm: Evm, forced: seq<ForcedTx>)
    requires forced != [] && RunForced(p, cfg, env, evm, forced).stop.None?
    ensures RunForced(p, cfg, env, evm, forced[..|forced| - 1]).stop.None?
    ensures !KeptAt(p, cfg, env, evm, forced, |forced| - 1) <==> SkippedAt(p, cfg, env, evm, forced, |forced| - 1)
  {
    ForcedStepVerdict(RunForced(p, cfg, env, evm, forced[..|forced| - 1]), cfg, env, evm, forced[|forced| - 1]);
  }

  lemma {:induction false} FlagAt(p: Progress, cfg: Config, env: BlockEnv, evm: Evm, forced: seq<ForcedTx>, i: nat)
    requires i < |forced| && RunForced(p, cfg, env, evm, forced).stop.None?
    ensures KeptFlags(p, cfg, env, evm, forced)[i] == KeptAt(p, cfg, env, evm, forced, i)
    ensures !KeptAt(p, cfg, env, evm, forced, i) <==> SkippedAt(p, cfg, env, evm, forced, i)
    decreases |forced|
  {
    KeptOrSkipped(p, cfg, env, evm, forced);
    if i < |forced| - 1 {
      FlagAt(p, cfg, env, evm, forced[..|forced| - 1], i);
      assert forced[..|forced| - 1][..i] == forced[..i];
    }
  }

  lemma LastForced(p: Progress, cfg: Config, env: BlockEnv, evm: Evm, forced: seq<ForcedTx>)
    requires forced != []
    ensures var n := |forced| - 1;
            var q := RunForced(p, cfg, env, evm, forced[..n]);
            && RunForced(p, cfg, env, evm, forced) == ForcedStep(q, cfg, env, evm, forced[n])
            && (RunForced(p, cfg, env, evm, forced).stop.None? ==> q.stop.None?)
  {
  }

  lemma LastFlag(p: Progress, cfg: Config, env: BlockEnv, evm: Evm, forced: seq<ForcedTx>)
    requires forced != []
    ensures var n := |forced| - 1;
            KeptFlags(p, cfg, env, evm, forced) == KeptFlags(p, cfg, env, evm, forced[..n])
              + [Kept(Try(RunForced(p, cfg, env, evm, forced[..n]).draft, env, evm, forced[n].tx).1)]
  {
  }

  lemma LastOfTxs(forced: seq<ForcedTx>)
    requires forced != []
    ensures TxsOf(forced) == TxsOf(forced[..|forced| - 1]) + [forced[|forced| - 1].tx]
  {
  }

  lemma FilteredStep(q: Progress, cfg: Config, env: BlockEnv, evm: Evm, f: ForcedTx, txs: seq<Tx>, kept: seq<bool>)
    requires |txs| == |kept| && q.draft.body == L1Order.Filter(txs, kept)
    requires ForcedStep(q, cfg, env, evm, f).stop.None?
    ensures ForcedStep(q, cfg, env, evm, f).draft.body
            == L1Order.Filter(txs + [f.tx], kept + [Kept(Try(q.draft, env, evm, f.tx).1)])
  {
    ForcedStepVerdict(q, cfg, env, evm, f);
    L1Order.FilterSnoc(txs, f.tx, kept, Kept(Try(q.draft, env, evm, f.tx).1));
  }

  /** The forced part of a body is the forced list without the transactions that were silently dropped. */
  lemma {:induction false} ForcedBodyIsFiltered(p: Progress, cfg: Config, env: BlockEnv, evm: Evm,
                                                forced: seq<ForcedTx>)
    requires p.draft.body == [] && RunForced(p, cfg, env, evm, forced).stop.None?
    ensures RunForced(p, cfg, env, evm, forced).draft.body
            == L1Order.Filter(TxsOf(forced), KeptFlags(p, cfg, env, evm, forced))
  {
    if forced != [] {
      var n := |forced| - 1;
      var q := RunForced(p, cfg, env, evm, forced[..n]);
      var txs, flags := TxsOf(forced[..n]), KeptFlags(p, cfg, env, evm, forced[..n]);
      LastForced(p, cfg, env, evm, forced);
      LastFlag(p, cfg, env, evm, forced);
      LastOfTxs(forced);
      ForcedBodyIsFiltered(p, cfg, env, evm, forced[..n]);
      FilteredStep(q, cfg, env, evm, forced[n], txs, flags);
    }
  }

  /** The pool only ever adds transactions that are not L1 messages. */
  lemma {:induction false} PoolAddsNoL1(p: Progress, cfg: Config, env: BlockEnv, evm: Evm, pool: seq<Candidate>)
    returns (tail: seq<Tx>)
    ensures RunPool(p, cfg, env, evm, pool).draft.body == p.draft.body + tail
    ensures forall tx <- tail :: !tx.L1Message?
  {
    if pool == [] {
      tail := [];
    } else {
      var n := |pool| - 1;
      var q := RunPool(p, cfg, env, evm, pool[..n]);
      tail := PoolAddsNoL1(p, cfg, env, evm, pool[..n]);
      PoolStepTries(q, cfg, env, evm, pool[n]);
      DraftStep(q, PoolStep(q, cfg, env, evm, pool[n]), env, evm, pool[n].tx);
      var body := PoolStep(q, cfg, env, evm, pool[n]).draft.body;
      if body != q.draft.body {
        assert body == p.draft.body + (tail + [pool[n].tx]);
        tail := tail + [pool[n].tx];
      }
    }
  }

  /** Some L1 message of the run was dropped although one before it and one after it were kept. */
  ghost predicate SkipsInside(p: Progress, cfg: Config, env: BlockEnv, evm: Evm, forced: seq<ForcedTx>, k: nat)
    requires k <= |forced|
  {
    exists i, j, l :: 0 <= i < j < l < k && KeptAt(p, cfg, env, evm, forced, i)
                      && SkippedAt(p, cfg, env, evm, forced, j) && KeptAt(p, cfg, env, evm, forced, l)
  }

  lemma SkipsInsideIffHole(p: Progress, cfg: Config, env: BlockEnv, evm: Evm, forced: seq<ForcedTx>, k: nat)
    requires k <= |forced| && RunForced(p, cfg, env, evm, forced).stop.None?
    ensures SkipsInside(p, cfg, env, evm, forced, k) <==> L1Order.Hole(KeptFlags(p, cfg, env, evm, forced), k)
  {
    forall i | 0 <= i < |forced|
      ensures KeptFlags(p, cfg, env, evm, forced)[i] == KeptAt(p, cfg, env, evm, forced, i)
      ensures !KeptAt(p, cfg, env, evm, forced, i) <==> SkippedAt(p, cfg, env, evm, forced, i)
    {
      FlagAt(p, cfg, env, evm, forced, i);
    }
  }

  /**
   From a forced list that starts with an L1 run, a body passes the consensus order rule exactly when
   the interpreter did not refuse an L1 message between two that it executed. Nothing else matters:
   neither what the pool added nor which forced L2 transactions were dropped.
   */
  lemma BodyIsWellOrderedIff(p: Progress, cfg: Config, env: BlockEnv, evm: Evm, forced: seq<ForcedTx>, k: nat,
                             pool: seq<Candidate>)
    requires p.draft.body == [] && RunForced(p, cfg, env, evm, forced).stop.None?
    requires L1Order.L1Run(TxsOf(forced), k) && k <= TWO_64
    ensures L1Order.WellOrdered(RunPool(RunForced(p, cfg, env, evm, forced), cfg, env, evm, pool).draft.body)
            <==> !SkipsInside(p, cfg, env, evm, forced, k)
  {
    var tail := PoolAddsNoL1(RunForced(p, cfg, env, evm, forced), cfg, env, evm, pool);
    ForcedBodyIsFiltered(p, cfg, env, evm, forced);
    L1Order.DroppedIsWellOrderedIff(TxsOf(forced), k, KeptFlags(p, cfg, env, evm, forced), tail);
    SkipsInsideIffHole(p, cfg, env, evm, forced, k);
  }

  // ----- What the pool adds, and what it earns ---------------------------------------------------------------------

  datatype Entry = Entry(tx: Tx, tip: nat, gasUsed: U64)

  function EntryTxs(entries: seq<Entry>): (txs: seq<Tx>)
    ensures |txs| == |entries| && forall i :: 0 <= i < |txs| ==> txs[i] == entries[i].tx
  {
    seq(|entries|, i requires 0 <= i < |entries| => entries[i].tx)
  }

  function EntryGas(entries: seq<Entry>): (gas: seq<U64>)
    ensures |gas| == |entries| && forall i :: 0 <= i < |gas| ==> gas[i] == entries[i].gasUsed
  {
    seq(|entries|, i requires 0 <= i < |entries| => entries[i].gasUsed)
  }

  /** Tip times gas used, summed. */
  function Earned(entries: seq<Entry>): nat {
    if entries == [] then 0
    else Earned(entries[..|entries| - 1]) + entries[|entries| - 1].tip * entries[|entries| - 1].gasUsed
  }

  /** `q` has added exactly `entries` to `p`. */
  predicate Adds(p: Progress, q: Progress, entries: seq<Entry>) {
    && q.draft.body == p.draft.body + EntryTxs(entries)
    && q.draft.exec.spent == p.draft.exec.spent + EntryGas(entries)
    && q.totals.fees == p.totals.fees + Earned(entries)
  }

  /** Whether the loop may still commit: no limit of the breaker is passed. */
  predicate BeforeBreak(cfg: Config, t: Totals) {
    && (cfg.gasLimit.Some? ==> t.gas <= SatSub(cfg.gasLimit.value, MIN_TRANSACTION_GAS))
    && (cfg.maxDa.Some? ==> t.da <= SatSub(cfg.maxDa.value, MIN_TRANSACTION_DATA_SIZE))
  }

  predicate AddsOne(p: Progress, q: Progress, e: Entry) {
    && q.draft.body == p.draft.body + [e.tx] && q.draft.exec.spent == p.draft.exec.spent + [e.gasUsed]
    && q.totals.fees == p.totals.fees + e.tip * e.gasUsed
  }

  /** A candidate is either added whole, before the breaker's limits, or not at all. */
  lemma PoolStepAdds(p: Progress, cfg: Config, env: BlockEnv, evm: Evm, c: Candidate) returns (added: Option<Entry>)
    ensures var q := PoolStep(p, cfg, env, evm, c);
            match added
            case None => Adds(p, q, [])
            case Some(e) => && AddsOne(p, q, e) && e.tx == c.tx && e.tip == c.tip
                            && BeforeBreak(cfg, p.totals) && !c.tx.L1Message? && !c.cancelled
  {
    var q := PoolStep(p, cfg, env, evm, c);
    var r := Try(p.draft, env, evm, c.tx).1;
    if q.draft != p.draft && Kept(r) {
      added := Some(Entry(c.tx, c.tip, r.value.value));
    } else {
      added := None;
      if q.draft != p.draft {
        RejectionLeavesNoTrace(p.draft, env, evm, c.tx);
        assert Visible(q.draft).body == Visible(p.draft).body
               && Visible(q.draft).exec.spent == Visible(p.draft).exec.spent;
      }
    }
  }

  lemma EntriesSnoc(a: seq<Entry>, e: Entry)
    ensures EntryTxs(a + [e]) == EntryTxs(a) + [e.tx] && EntryGas(a + [e]) == EntryGas(a) + [e.gasUsed]
    ensures Earned(a + [e]) == Earned(a) + e.tip * e.gasUsed
  {
    assert (a + [e])[..|a + [e]| - 1] == a;
  }

  lemma AddsSnoc(p: Progress, q: Progress, r: Progress, a: seq<Entry>, e: Entry)
    requires Adds(p, q, a) && AddsOne(q, r, e)
    ensures Adds(p, r, a + [e])
  {
    EntriesSnoc(a, e);
  }

  lemma AddsNothing(p: Progress, q: Progress, r: Progress, a: seq<Entry>)
    requires Adds(p, q, a) && Adds(q, r, [])
    ensures Adds(p, r, a)
  {
    assert EntryTxs([]) == [] && EntryGas([]) == [];
  }

  /** The entries are the candidates at the ascending positions `picked`, none of them an L1 message. */
  predicate PickedFrom(pool: seq<Candidate>, picked: seq<nat>, entries: seq<Entry>) {
    && |picked| == |entries|
    && (forall i :: 0 <= i < |picked| ==>
                      && picked[i] < |pool| && !entries[i].tx.L1Message?
                      && entries[i].tx == pool[picked[i]].tx && entries[i].tip == pool[picked[i]].tip)
    && (forall i, j :: 0 <= i < j < |picked| ==> picked[i] < picked[j])
  }

  /**
   The pool loop adds some of its candidates, in order, none twice and none of them an L1 message: the
   list, the executor's gas and the fees grow by exactly those transactions, their gas, and tip times gas.
   */
  lemma {:induction false} PoolAccounting(p: Progress, cfg: Config, env: BlockEnv, evm: Evm, pool: seq<Candidate>)
    returns (entries: seq<Entry>, picked: seq<nat>)
    ensures Adds(p, RunPool(p, cfg, env, evm, pool), entries) && PickedFrom(pool, picked, entries)
  {
    if pool == [] {
      entries, picked := [], [];
    } else {
      var n := |pool| - 1;
      var q := RunPool(p, cfg, env, evm, pool[..n]);
      entries, picked := PoolAccounting(p, cfg, env, evm, pool[..n]);
      var added := PoolStepAdds(q, cfg, env, evm, pool[n]);
      if added.Some? {
        AddsSnoc(p, q, PoolStep(q, cfg, env, evm, pool[n]), entries, added.value);
        entries, picked := entries + [added.value], picked + [n];
      } else {
        AddsNothing(p, q, PoolStep(q, cfg, env, evm, pool[n]), entries);
      }
    }
  }

  /** Forced transactions earn the builder nothing. */
  lemma {:induction false} ForcedEarnsNothing(p: Progress, cfg: Config, env: BlockEnv, evm: Evm, forced: seq<ForcedTx>)
    ensures RunForced(p, cfg, env, evm, forced).totals.fees == p.totals.fees
  {
    if forced != [] { ForcedEarnsNothing(p, cfg, env, evm, forced[..|forced| - 1]); }
  }
}
