/**
 The block executor: pre-execution changes, execution and commit of transactions, and the state
 hook that is told of every committed update. The interpreter is a function of the state, the
 transaction and the two validation checks; a database read may fail at any point.
 */
module BlockExecutor {
  import opened MachineInts
  import opened WorldState
  import opened Transaction
  import opened Transitions
  import CodeWitness

  datatype BlockEnv = BlockEnv(number: U64, gasLimit: U64, active: set<Fork>)

  /** A pair of compression ratio and compressed size, when the caller supplies one. */
  type Compression = Option<(nat, nat)>

  datatype Checks = Checks(baseFee: bool, nonce: bool)

  datatype Verdict =
    | Executed(gasUsed: U64, update: Update, l1Fee: nat, ops: seq<CodeWitness.Op>)
    | Invalid(nonceTooLow: bool)
    | Failed(seen: seq<CodeWitness.Op>)

  datatype Evm = Evm(blockHashesCall: State -> Option<Update>, transact: (State, Tx, Compression, Checks) -> Verdict)

  /** A transaction never uses more gas than its limit. */
  ghost predicate Sound(evm: Evm) {
    forall s, tx, info, checks :: evm.transact(s, tx, info, checks).Executed? ==>
                                    evm.transact(s, tx, info, checks).gasUsed <= tx.gasLimit
  }

  datatype TxResult = TxResult(gasUsed: U64, update: Update, l1Fee: nat, isL1Message: bool, ops: seq<CodeWitness.Op>)

  datatype Receipt = Receipt(isL1Message: bool, cumulativeGasUsed: U64, l1Fee: nat)

  datatype ExecError =
    | GasLimitMoreThanAvailable(transactionGasLimit: U64, blockAvailableGas: U64)
    | InvalidTx(nonceTooLow: bool)
    | EvmFailure(seen: seq<CodeWitness.Op>)
    | DatabaseFailure
    | BlockHashContractCall
    | FewerCompressionInfos
    | MoreCompressionInfos

  /** `commits` is the database's record of updates, `spent` what each commit returned, `hook` the hook's log. */
  datatype Exec = Exec(
    db: State, commits: seq<Update>, gasUsed: U64, spent: seq<U64>, receipts: seq<Receipt>,
    hook: Option<seq<Update>>, checks: Checks)
  {
    /** Commits an update and reports it. */
    function Report(u: Update): Exec {
      this.(db := Commit(db, u), commits := commits + [u],
            hook := if hook.Some? then Some(hook.value + [u]) else None)
    }
  }

  function NewExec(db: State): Exec {
    Exec(db, [], 0, [], [], None, Checks(true, true))
  }

  // ----- Pre-execution changes ---------------------------------------------------------------------

  /** Applies a transition; the empty update is neither committed nor reported. */
  function Transit(x: Exec, fork: Fork): Exec {
    var u := TransitionUpdate(fork, x.db);
    if u == map[] then x else x.Report(u)
  }

  /** One fork's stage with `left` reads before the failing one; `None` when a read failed. */
  function RunStage(x: Exec, env: BlockEnv, fork: Fork, left: nat): (Exec, Option<nat>) {
    if fork !in env.active then (x, Some(left))
    else if left < Reads(fork, x.db) then (x, None)
    else (Transit(x, fork), Some(left - Reads(fork, x.db)))
  }

  function RunStages(x: Exec, env: BlockEnv, left: nat): (Exec, Option<nat>) {
    var (x1, left1) := RunStage(x, env, Feynman, left);
    if left1.None? then (x1, None)
    else
      var (x2, left2) := RunStage(x1, env, GalileoV2, left1.value);
      if left2.None? then (x2, None) else RunStage(x2, env, Tsuki, left2.value)
  }

  /** Whether the EIP-2935 call is made. */
  predicate CallsBlockHashes(env: BlockEnv) {
    Feynman in env.active && env.number != 0
  }

  function RunBlockHashes(x: Exec, env: BlockEnv, evm: Evm): (Exec, Option<ExecError>) {
    if !CallsBlockHashes(env) then (x, None)
    else
      var u := evm.blockHashesCall(x.db);
      if u.None? then (x, Some(BlockHashContractCall)) else (x.Report(u.value), None)
  }

  /** The overhead slot is read first, then the stages run in fork order, then the system call. */
  function PreExecution(x: Exec, env: BlockEnv, evm: Evm, budget: nat): (Exec, Option<ExecError>) {
    if budget == 0 then (x, Some(DatabaseFailure))
    else
      var (x1, left) := RunStages(x, env, budget - 1);
      if left.None? then (x1, Some(DatabaseFailure)) else RunBlockHashes(x1, env, evm)
  }

  // ----- Transactions --------------------------------------------------------------------------------

  /** `gas_limit - gas_used` on `u64`; the release build would wrap. */
  function Available(x: Exec, env: BlockEnv): U64 {
    if x.gasUsed <= env.gasLimit then env.gasLimit - x.gasUsed else env.gasLimit + 0x1_0000_0000_0000_0000 - x.gasUsed
  }

  function Execute(x: Exec, env: BlockEnv, evm: Evm, tx: Tx, info: Compression): (Exec, Result<TxResult, ExecError>) {
    var available := Available(x, env);
    if tx.gasLimit > available then (x, Err(GasLimitMoreThanAvailable(tx.gasLimit, available)))
    else if tx.Blob? then (x, Err(InvalidTx(false)))
    else
      var y := x.(checks := Checks(!tx.L1Message?, !tx.L1Message?));
      match evm.transact(x.db, tx, info, y.checks)
      case Executed(gasUsed, update, l1Fee, ops) =>
        (y, Ok(TxResult(gasUsed, update, if tx.L1Message? then 0 else l1Fee, tx.L1Message?, ops)))
      case Invalid(low) => (y, Err(InvalidTx(low)))
      case Failed(seen) => (y, Err(EvmFailure(seen)))
  }

  function CommitResult(x: Exec, out: TxResult): Exec {
    var gasUsed := WrapAdd(x.gasUsed, out.gasUsed);
    x.Report(out.update).(
      gasUsed := gasUsed, spent := x.spent + [out.gasUsed],
      receipts := x.receipts + [Receipt(out.isL1Message, gasUsed, out.l1Fee)])
  }

  /** `execute_transaction`: executes, and commits a result. */
  function RunTx(x: Exec, env: BlockEnv, evm: Evm, tx: Tx, info: Compression): (Exec, Option<ExecError>) {
    var (y, r) := Execute(x, env, evm, tx, info);
    if r.Ok? then (CommitResult(y, r.value), None) else (y, Some(r.error))
  }

  /** Runs a list, stopping at the first error. */
  function RunTxs(x: Exec, env: BlockEnv, evm: Evm, txs: seq<(Tx, Compression)>): (Exec, Option<ExecError>) {
    if txs == [] then (x, None)
    else
      var (y, e) := RunTxs(x, env, evm, txs[..|txs| - 1]);
      if e.Some? then (y, e) else RunTx(y, env, evm, txs[|txs| - 1].0, txs[|txs| - 1].1)
  }

  // ----- Runs --------------------------------------------------------------------------------------------

  datatype Action =
    | Prepare(budget: nat)
    | Dry(tx: Tx, info: Compression)
    | Transact(tx: Tx, info: Compression)
    | CommitOutput(out: TxResult)

  function Step(x: Exec, env: BlockEnv, evm: Evm, a: Action): Exec {
    match a
    case Prepare(budget) => PreExecution(x, env, evm, budget).0
    case Dry(tx, info) => Execute(x, env, evm, tx, info).0
    case Transact(tx, info) => RunTx(x, env, evm, tx, info).0
    case CommitOutput(out) => CommitResult(x, out)
  }

  function Run(x: Exec, env: BlockEnv, evm: Evm, actions: seq<Action>): Exec {
    if actions == [] then x else Step(Run(x, env, evm, actions[..|actions| - 1]), env, evm, actions[|actions| - 1])
  }

  /** Since `x` the executor committed `us`, and told the hook of exactly those. */
  predicate Committed(x: Exec, y: Exec, us: seq<Update>) {
    && y.commits == x.commits + us && y.db == CommitAll(x.db, us)
    && y.hook.Some? == x.hook.Some? && (x.hook.Some? ==> y.hook.value == x.hook.value + us)
  }

  ghost predicate Follows(x: Exec, y: Exec) {
    exists us :: Committed(x, y, us)
  }

  lemma FollowsReport(x: Exec, y: Exec, u: Update)
    requires Follows(x, y)
    ensures Follows(x, y.Report(u))
  {
    var us :| Committed(x, y, us);
    CommitAllSnoc(x.db, us, u);
    assert Committed(x, y.Report(u), us + [u]);
  }

  lemma FollowsPreExecution(x: Exec, y: Exec, env: BlockEnv, evm: Evm, budget: nat)
    requires Follows(x, y)
    ensures Follows(x, PreExecution(y, env, evm, budget).0)
  {
    if budget > 0 {
      var (y1, left1) := RunStage(y, env, Feynman, budget - 1);
      FollowsStage(x, y, env, Feynman, budget - 1);
      if left1.Some? {
        var (y2, left2) := RunStage(y1, env, GalileoV2, left1.value);
        FollowsStage(x, y1, env, GalileoV2, left1.value);
        if left2.Some? {
          var (y3, left3) := RunStage(y2, env, Tsuki, left2.value);
          FollowsStage(x, y2, env, Tsuki, left2.value);
          if left3.Some? { FollowsBlockHashes(x, y3, env, evm); }
        }
      }
    }
  }

  lemma FollowsStage(x: Exec, y: Exec, env: BlockEnv, fork: Fork, left: nat)
    requires Follows(x, y)
    ensures Follows(x, RunStage(y, env, fork, left).0)
  {
    FollowsReport(x, y, TransitionUpdate(fork, y.db));
  }

  lemma FollowsBlockHashes(x: Exec, y: Exec, env: BlockEnv, evm: Evm)
    requires Follows(x, y)
    ensures Follows(x, RunBlockHashes(y, env, evm).0)
  {
    var u := evm.blockHashesCall(y.db);
    if u.Some? { FollowsReport(x, y, u.value); }
  }

  lemma FollowsDry(x: Exec, y: Exec, env: BlockEnv, evm: Evm, tx: Tx, info: Compression)
    requires Follows(x, y)
    ensures Follows(x, Execute(y, env, evm, tx, info).0)
  {
    var us :| Committed(x, y, us);
    assert Committed(x, Execute(y, env, evm, tx, info).0, us);
  }

  lemma FollowsTx(x: Exec, y: Exec, env: BlockEnv, evm: Evm, tx: Tx, info: Compression)
    requires Follows(x, y)
    ensures Follows(x, RunTx(y, env, evm, tx, info).0)
  {
    var (z, r) := Execute(y, env, evm, tx, info);
    FollowsDry(x, y, env, evm, tx, info);
    if r.Ok? { FollowsCommit(x, z, r.value); }
  }

  lemma FollowsCommit(x: Exec, y: Exec, out: TxResult)
    requires Follows(x, y)
    ensures Follows(x, CommitResult(y, out))
  {
    FollowsReport(x, y, out.update);
    var us :| Committed(x, y.Report(out.update), us);
    assert Committed(x, CommitResult(y, out), us);
  }

  lemma {:induction false} RunFollows(x: Exec, env: BlockEnv, evm: Evm, actions: seq<Action>)
    ensures Follows(x, Run(x, env, evm, actions))
  {
    if actions == [] {
      assert Committed(x, x, []);
    } else {
      var n := |actions| - 1;
      var y := Run(x, env, evm, actions[..n]);
      RunFollows(x, env, evm, actions[..n]);
      match actions[n]
      case Prepare(budget) => FollowsPreExecution(x, y, env, evm, budget);
      case Dry(tx, info) => FollowsDry(x, y, env, evm, tx, info);
      case Transact(tx, info) => FollowsTx(x, y, env, evm, tx, info);
      case CommitOutput(out) => FollowsCommit(x, y, out);
    }
  }

  lemma FollowsFolds(x: Exec, y: Exec)
    requires Follows(x, y) && x.hook == Some([])
    ensures y.hook.Some? && y.commits == x.commits + y.hook.value && y.db == CommitAll(x.db, y.hook.value)
  {
    var us :| Committed(x, y, us);
    assert y.hook.value == us;
  }

  /**
   In every run, failed calls included, a hook installed at `x` hears exactly the updates committed
   since, in order; folding them over the state at that point gives the final state.
   */
  lemma HookFoldsToFinalState(x: Exec, env: BlockEnv, evm: Evm, actions: seq<Action>)
    requires x.hook == Some([])
    ensures var y := Run(x, env, evm, actions);
            && y.hook.Some? && y.commits == x.commits + y.hook.value
            && y.db == CommitAll(x.db, y.hook.value)
  {
    RunFollows(x, env, evm, actions);
    FollowsFolds(x, Run(x, env, evm, actions));
  }

  // ----- What neither the hook nor old checks influence -----------------------------------------------------

  /** Executors that differ at most in their hook and in the checks left by the last transaction. */
  predicate Alike(x: Exec, y: Exec) { x.(hook := y.hook, checks := y.checks) == y }

  lemma ExecuteAlike(x: Exec, y: Exec, env: BlockEnv, evm: Evm, tx: Tx, info: Compression)
    requires Alike(x, y)
    ensures Execute(x, env, evm, tx, info).1 == Execute(y, env, evm, tx, info).1
    ensures Alike(Execute(x, env, evm, tx, info).0, Execute(y, env, evm, tx, info).0)
  {
  }

  lemma {:induction false} RunTxsAlike(x: Exec, y: Exec, env: BlockEnv, evm: Evm, txs: seq<(Tx, Compression)>)
    requires Alike(x, y)
    ensures RunTxs(x, env, evm, txs).1 == RunTxs(y, env, evm, txs).1
    ensures Alike(RunTxs(x, env, evm, txs).0, RunTxs(y, env, evm, txs).0)
  {
    if txs != [] {
      var n := |txs| - 1;
      RunTxsAlike(x, y, env, evm, txs[..n]);
      ExecuteAlike(RunTxs(x, env, evm, txs[..n]).0, RunTxs(y, env, evm, txs[..n]).0, env, evm, txs[n].0, txs[n].1);
    }
  }

  /** A stage that has the reads it needs does the same with more of them. */
  lemma StageAlike(x: Exec, y: Exec, env: BlockEnv, fork: Fork, left: nat, more: nat)
    requires Alike(x, y) && left <= more && RunStage(x, env, fork, left).1.Some?
    ensures var ((x', left'), (y', more')) := (RunStage(x, env, fork, left), RunStage(y, env, fork, more));
            more'.Some? && left'.value <= more'.value && Alike(x', y')
  {
  }

  lemma StagesAlike(x: Exec, y: Exec, env: BlockEnv, left: nat, more: nat)
    requires Alike(x, y) && left <= more && RunStages(x, env, left).1.Some?
    ensures RunStages(y, env, more).1.Some? && Alike(RunStages(x, env, left).0, RunStages(y, env, more).0)
  {
    var (x1, left1) := RunStage(x, env, Feynman, left);
    var (y1, more1) := RunStage(y, env, Feynman, more);
    StageAlike(x, y, env, Feynman, left, more);
    var (x2, left2) := RunStage(x1, env, GalileoV2, left1.value);
    var (y2, more2) := RunStage(y1, env, GalileoV2, more1.value);
    StageAlike(x1, y1, env, GalileoV2, left1.value, more1.value);
    StageAlike(x2, y2, env, Tsuki, left2.value, more2.value);
  }

  lemma BlockHashesAlike(x: Exec, y: Exec, env: BlockEnv, evm: Evm)
    requires Alike(x, y)
    ensures RunBlockHashes(x, env, evm).1 == RunBlockHashes(y, env, evm).1
    ensures Alike(RunBlockHashes(x, env, evm).0, RunBlockHashes(y, env, evm).0)
  {
  }

  /** Preparing a block does not depend on the hook, nor on how many reads are left over. */
  lemma PreExecutionAlike(x: Exec, y: Exec, env: BlockEnv, evm: Evm, budget: nat, more: nat)
    requires Alike(x, y) && budget <= more && PreExecution(x, env, evm, budget).1 == None
    ensures PreExecution(y, env, evm, more).1 == None
    ensures Alike(PreExecution(x, env, evm, budget).0, PreExecution(y, env, evm, more).0)
  {
    StagesAlike(x, y, env, budget - 1, more - 1);
    BlockHashesAlike(RunStages(x, env, budget - 1).0, RunStages(y, env, more - 1).0, env, evm);
  }

  // ----- Gas ------------------------------------------------------------------------------------------------

  function SumOf(spent: seq<U64>): nat {
    if spent == [] then 0 else SumOf(spent[..|spent| - 1]) + spent[|spent| - 1]
  }

  /** The gas counter, the receipts and the gas limit agree. */
  predicate GasAccounted(x: Exec, env: BlockEnv) {
    && x.gasUsed == SumOf(x.spent) <= env.gasLimit
    && |x.receipts| == |x.spent|
    && forall i :: 0 <= i < |x.receipts| ==> x.receipts[i].cumulativeGasUsed == SumOf(x.spent[..i + 1])
  }

  lemma GasAfterCommit(x: Exec, env: BlockEnv, out: TxResult)
    requires GasAccounted(x, env) && x.gasUsed + out.gasUsed <= env.gasLimit
    ensures GasAccounted(CommitResult(x, out), env)
  {
    var y := CommitResult(x, out);
    assert y.spent[..|y.spent| - 1] == x.spent;
    forall i | 0 <= i < |y.receipts| ensures y.receipts[i].cumulativeGasUsed == SumOf(y.spent[..i + 1]) {
      if i < |x.receipts| { assert y.spent[..i + 1] == x.spent[..i + 1]; } else { assert y.spent[..i + 1] == y.spent; }
    }
  }

  predicate SameGas(x: Exec, y: Exec) {
    y.gasUsed == x.gasUsed && y.spent == x.spent && y.receipts == x.receipts
  }

  lemma StageKeepsGas(x: Exec, env: BlockEnv, fork: Fork, left: nat)
    ensures SameGas(x, RunStage(x, env, fork, left).0)
  {
  }

  lemma CallKeepsGas(x: Exec, env: BlockEnv, evm: Evm)
    ensures SameGas(x, RunBlockHashes(x, env, evm).0)
  {
  }

  lemma StagesKeepGas(x: Exec, env: BlockEnv, left: nat)
    ensures SameGas(x, RunStages(x, env, left).0)
  {
    var (y1, left1) := RunStage(x, env, Feynman, left);
    StageKeepsGas(x, env, Feynman, left);
    if left1.Some? {
      var (y2, left2) := RunStage(y1, env, GalileoV2, left1.value);
      StageKeepsGas(y1, env, GalileoV2, left1.value);
      if left2.Some? { StageKeepsGas(y2, env, Tsuki, left2.value); }
    }
  }

  lemma PreExecutionKeepsGas(x: Exec, env: BlockEnv, evm: Evm, budget: nat)
    ensures SameGas(x, PreExecution(x, env, evm, budget).0)
  {
    if budget > 0 {
      StagesKeepGas(x, env, budget - 1);
      CallKeepsGas(RunStages(x, env, budget - 1).0, env, evm);
    }
  }

  /**
   In every run that commits only what it has just executed, the gas counter is the sum of the
   gas of the transactions, every receipt carries its running sum, and the block limit holds; so
   the subtraction for the available gas never wraps.
   */
  lemma {:induction false} RunKeepsGas(x: Exec, env: BlockEnv, evm: Evm, actions: seq<Action>)
    requires Sound(evm) && GasAccounted(x, env) && forall a <- actions :: !a.CommitOutput?
    ensures GasAccounted(Run(x, env, evm, actions), env)
  {
    if actions != [] {
      var n := |actions| - 1;
      var y := Run(x, env, evm, actions[..n]);
      RunKeepsGas(x, env, evm, actions[..n]);
      assert actions[n] in actions;
      match actions[n]
      case Prepare(budget) => PreExecutionKeepsGas(y, env, evm, budget);
      case Dry(_, _) =>
      case Transact(tx, info) => TxKeepsGas(y, env, evm, tx, info);
    }
  }

  lemma TxKeepsGas(x: Exec, env: BlockEnv, evm: Evm, tx: Tx, info: Compression)
    requires Sound(evm) && GasAccounted(x, env)
    ensures GasAccounted(RunTx(x, env, evm, tx, info).0, env)
  {
    var (y, r) := Execute(x, env, evm, tx, info);
    if r.Ok? { GasAfterCommit(y, env, r.value); }
  }

  /** `validate_block_post_execution`, the gas part: the header against the last receipt. */
  function LastCumulativeGas(receipts: seq<Receipt>): U64 {
    if receipts == [] then 0 else receipts[|receipts| - 1].cumulativeGasUsed
  }

  predicate GasUsedMatches(headerGasUsed: U64, receipts: seq<Receipt>) {
    headerGasUsed == LastCumulativeGas(receipts)
  }

  /** A header with the executor's gas passes the consensus check, and no other header does. */
  lemma ExecutorGasIsTheHeaders(x: Exec, env: BlockEnv, headerGasUsed: U64)
    requires GasAccounted(x, env)
    ensures GasUsedMatches(headerGasUsed, x.receipts) <==> headerGasUsed == x.gasUsed
  {
    if x.receipts != [] { assert x.spent[..|x.receipts|] == x.spent; }
  }

  // ----- Pre-execution against the transitions ------------------------------------------------------------

  lemma TransitRuns(x: Exec, fork: Fork)
    ensures Transit(x, fork).db == Apply(fork, x.db)
  {
    CommitEmpty(x.db);
  }

  lemma StageRuns(x: Exec, env: BlockEnv, fork: Fork, left: nat)
    requires RunStage(x, env, fork, left).1.Some?
    ensures RunStage(x, env, fork, left).0.db == Stage(fork, env.active, x.db)
  {
    TransitRuns(x, fork);
  }

  /** The reads of the stages of a block, each counted in the state in which its stage runs. */
  function StageReads(active: set<Fork>, s: State): nat {
    (if Feynman in active then Reads(Feynman, s) else 0)
    + (if GalileoV2 in active then Reads(GalileoV2, BeforeStage(GalileoV2, active, s)) else 0)
    + (if Tsuki in active then Reads(Tsuki, BeforeStage(Tsuki, active, s)) else 0)
  }

  lemma StagesRun(x: Exec, env: BlockEnv, left: nat)
    ensures RunStages(x, env, left).1.Some? <==> StageReads(env.active, x.db) <= left
    ensures RunStages(x, env, left).1.Some? ==> RunStages(x, env, left).0.db == PreBlock(env.active, x.db)
  {
    var (x1, left1) := RunStage(x, env, Feynman, left);
    if left1.Some? {
      StageRuns(x, env, Feynman, left);
      var (x2, left2) := RunStage(x1, env, GalileoV2, left1.value);
      if left2.Some? {
        StageRuns(x1, env, GalileoV2, left1.value);
        if RunStage(x2, env, Tsuki, left2.value).1.Some? { StageRuns(x2, env, Tsuki, left2.value); }
      }
    }
  }

  /**
   The call succeeds exactly when the overhead slot and everything the stages read can be read, and the
   system call, made from Feynman on except at the genesis, succeeds. Then it leaves the state of the
   stages followed by the system call.
   */
  lemma PreExecutionRunsTheStages(x: Exec, env: BlockEnv, evm: Evm, budget: nat)
    ensures var forked := PreBlock(env.active, x.db);
            var called := Feynman in env.active && env.number != 0;
            var (y, e) := PreExecution(x, env, evm, budget);
            && e == (if budget < 1 + StageReads(env.active, x.db) then Some(DatabaseFailure)
                     else if called && evm.blockHashesCall(forked).None? then Some(BlockHashContractCall)
                     else None)
            && (e == None ==> y.db == if called then Commit(forked, evm.blockHashesCall(forked).value) else forked)
  {
    if budget > 0 {
      StagesRun(x, env, budget - 1);
      CallRuns(RunStages(x, env, budget - 1).0, env, evm);
    }
  }

  lemma CallRuns(x: Exec, env: BlockEnv, evm: Evm)
    ensures var called := Feynman in env.active && env.number != 0;
            var (y, e) := RunBlockHashes(x, env, evm);
            if !called then y == x && e == None
            else match evm.blockHashesCall(x.db)
                 case None => y == x && e == Some(BlockHashContractCall)
                 case Some(u) => y.db == Commit(x.db, u) && e == None
  {
  }

  /** An installed transition leaves no trace, not even an empty update. */
  lemma InstalledStageIsSilent(x: Exec, env: BlockEnv, fork: Fork, left: nat)
    requires Installed(fork, x.db)
    ensures RunStage(x, env, fork, left).0 == x
  {
  }

  // ----- The executor ------------------------------------------------------------------------------------------

  class Executor {
    const env: BlockEnv
    const evm: Evm
    const db: Database
    ghost var spent: seq<U64>
    var gasUsed: U64
    var receipts: seq<Receipt>
    var hook: Option<seq<Update>>
    var checks: Checks

    ghost function View(): Exec
      reads this, db
    {
      Exec(db.state, db.commits, gasUsed, spent, receipts, hook, checks)
    }

    constructor (db: Database, env: BlockEnv, evm: Evm)
      requires db.commits == []
      ensures View() == NewExec(db.state)
      ensures this.db == db && this.env == env && this.evm == evm
    {
      this.db, this.env, this.evm := db, env, evm;
      gasUsed, spent, receipts, hook, checks := 0, [], [], None, Checks(true, true);
    }

    method SetStateHook(install: bool)
      modifies this
      ensures View() == old(View()).(hook := if install then Some([]) else None)
    {
      hook := if install then Some([]) else None;
    }

    method OnState(u: Update)
      modifies this`hook
      ensures hook == if old(hook).Some? then Some(old(hook).value + [u]) else None
    {
      if hook.Some? { hook := Some(hook.value + [u]); }
    }

    method OnPreBlockState(u: Update)
      modifies this`hook
      ensures hook == if old(hook).Some? && u != map[] then Some(old(hook).value + [u]) else old(hook)
    {
      if u == map[] { return; }
      OnState(u);
    }

    method ApplyStage(fork: Fork) returns (ok: bool)
      modifies this, db
      ensures var (x, left) := RunStage(old(View()), env, fork, old(db.readsLeft));
              View() == x && (ok <==> left.Some?) && (ok ==> db.readsLeft == left.value)
    {
      if fork !in env.active { return true; }
      var u := db.ApplyHardFork(fork);
      if u.None? { return false; }
      TransitRuns(old(View()), fork);
      OnPreBlockState(u.value);
      assert View() == Transit(old(View()), fork);
      return true;
    }

    method ApplyBlockHashesContractCall() returns (e: Option<ExecError>)
      modifies this, db
      ensures (View(), e) == RunBlockHashes(old(View()), env, evm)
    {
      if Feynman !in env.active { return None; }
      if env.number == 0 { return None; }
      var u := evm.blockHashesCall(db.state);
      if u.None? { return Some(BlockHashContractCall); }
      OnState(u.value);
      db.CommitUpdate(u.value);
      return None;
    }

    method ApplyPreExecutionChanges(systemConfig: Address, overheadSlot: Word) returns (e: Option<ExecError>)
      modifies this, db
      ensures (View(), e) == PreExecution(old(View()), env, evm, old(db.readsLeft))
    {
      var overhead := db.ReadStorage(systemConfig, overheadSlot);
      if overhead.None? { return Some(DatabaseFailure); }
      var ok := ApplyStage(Feynman);
      if !ok { return Some(DatabaseFailure); }
      ok := ApplyStage(GalileoV2);
      if !ok { return Some(DatabaseFailure); }
      ok := ApplyStage(Tsuki);
      if !ok { return Some(DatabaseFailure); }
      e := ApplyBlockHashesContractCall();
    }

    method ExecuteTransactionWithoutCommit(tx: Tx, info: Compression) returns (r: Result<TxResult, ExecError>)
      modifies this`checks
      ensures (View(), r) == Execute(old(View()), env, evm, tx, info)
    {
      var available := if gasUsed <= env.gasLimit then env.gasLimit - gasUsed
                       else env.gasLimit + 0x1_0000_0000_0000_0000 - gasUsed;
      if tx.gasLimit > available { return Err(GasLimitMoreThanAvailable(tx.gasLimit, available)); }
      if tx.Blob? { return Err(InvalidTx(false)); }
      checks := Checks(!tx.L1Message?, checks.nonce);
      checks := checks.(nonce := !tx.L1Message?);
      match evm.transact(db.state, tx, info, checks)
      case Executed(used, update, l1Fee, ops) =>
        return Ok(TxResult(used, update, if tx.L1Message? then 0 else l1Fee, tx.L1Message?, ops));
      case Invalid(low) => return Err(InvalidTx(low));
      case Failed(seen) => return Err(EvmFailure(seen));
    }

    method CommitTransaction(out: TxResult) returns (used: U64)
      modifies this, db
      ensures View() == CommitResult(old(View()), out) && used == out.gasUsed
    {
      OnState(out.update);
      gasUsed := WrapAdd(gasUsed, out.gasUsed);
      spent := spent + [out.gasUsed];
      receipts := receipts + [Receipt(out.isL1Message, gasUsed, out.l1Fee)];
      db.CommitUpdate(out.update);
      return out.gasUsed;
    }

    method ExecuteTransaction(tx: Tx, info: Compression) returns (e: Option<ExecError>)
      modifies this, db
      ensures (View(), e) == RunTx(old(View()), env, evm, tx, info)
    {
      var r := ExecuteTransactionWithoutCommit(tx, info);
      if r.Err? { return Some(r.error); }
      var used := CommitTransaction(r.value);
      return None;
    }

    /**
     `execute_block_with_compression_cache`: the i-th transaction runs with the i-th info; a
     missing info is reported after the transactions that have one, a surplus after all of them.
     */
    method ExecuteBlockWithCompressionCache(
      systemConfig: Address, overheadSlot: Word, txs: seq<Tx>, infos: seq<(nat, nat)>) returns (e: Option<ExecError>)
      modifies this, db
      ensures (View(), e) == BlockResult(old(View()), env, evm, old(db.readsLeft), txs, infos)
    {
      e := ApplyPreExecutionChanges(systemConfig, overheadSlot);
      if e.Some? { return; }
      ghost var prepared, pairs := View(), Paired(txs, infos);
      for i := 0 to |txs|
        invariant i <= |pairs| && (View(), None) == RunTxs(prepared, env, evm, pairs[..i])
      {
        if i == |infos| {
          assert pairs[..i] == pairs;
          return Some(FewerCompressionInfos);
        }
        e := ExecuteTransaction(txs[i], Some(infos[i]));
        RunTxsNext(prepared, env, evm, pairs, i);
        if e.Some? {
          RunTxsStops(prepared, env, evm, pairs, i + 1);
          return;
        }
      }
      assert pairs[..|txs|] == pairs;
      if |infos| > |txs| { return Some(MoreCompressionInfos); }
      return None;
    }
  }

  // ----- Blocks with compression infos ----------------------------------------------------------------------

  /** Transactions with their infos, up to the shorter of the two lists. */
  function Paired(txs: seq<Tx>, infos: seq<(nat, nat)>): (r: seq<(Tx, Compression)>)
    ensures |r| == Min(|txs|, |infos|) && forall i :: 0 <= i < |r| ==> r[i] == (txs[i], Some(infos[i]))
  {
    seq(Min(|txs|, |infos|), i requires 0 <= i < Min(|txs|, |infos|) => (txs[i], Some(infos[i])))
  }

  function BlockResult(x: Exec, env: BlockEnv, evm: Evm, budget: nat, txs: seq<Tx>, infos: seq<(nat, nat)>)
    : (Exec, Option<ExecError>)
  {
    var (y, e) := PreExecution(x, env, evm, budget);
    if e.Some? then (y, e)
    else
      var (z, f) := RunTxs(y, env, evm, Paired(txs, infos));
      (z, if f.Some? then f
          else if |infos| < |txs| then Some(FewerCompressionInfos)
          else if |txs| < |infos| then Some(MoreCompressionInfos) else None)
  }

  lemma RunTxsNext(x: Exec, env: BlockEnv, evm: Evm, txs: seq<(Tx, Compression)>, i: nat)
    requires i < |txs| && RunTxs(x, env, evm, txs[..i]).1 == None
    ensures RunTxs(x, env, evm, txs[..i + 1])
            == RunTx(RunTxs(x, env, evm, txs[..i]).0, env, evm, txs[i].0, txs[i].1)
  {
    assert txs[..i + 1][..i] == txs[..i];
  }

  /** After an error the rest of the list is not run. */
  lemma {:induction false} RunTxsStops(x: Exec, env: BlockEnv, evm: Evm, txs: seq<(Tx, Compression)>, i: nat)
    requires i <= |txs| && RunTxs(x, env, evm, txs[..i]).1.Some?
    ensures RunTxs(x, env, evm, txs) == RunTxs(x, env, evm, txs[..i])
    decreases |txs|
  {
    if i < |txs| {
      assert txs[..|txs| - 1][..i] == txs[..i];
      RunTxsStops(x, env, evm, txs[..|txs| - 1], i);
    } else {
      assert txs[..i] == txs;
    }
  }

  /** Whether the i-th transaction executes in the state its predecessors left. */
  predicate ExecutesAt(x: Exec, env: BlockEnv, evm: Evm, txs: seq<(Tx, Compression)>, i: nat)
    requires i < |txs|
  {
    Execute(RunTxs(x, env, evm, txs[..i]).0, env, evm, txs[i].0, txs[i].1).1.Ok?
  }

  ghost predicate AllExecute(x: Exec, env: BlockEnv, evm: Evm, txs: seq<(Tx, Compression)>) {
    forall i :: 0 <= i < |txs| ==> ExecutesAt(x, env, evm, txs, i)
  }

  lemma ExecutesAtPrefix(x: Exec, env: BlockEnv, evm: Evm, txs: seq<(Tx, Compression)>, n: nat, i: nat)
    requires i < n <= |txs|
    ensures ExecutesAt(x, env, evm, txs[..n], i) == ExecutesAt(x, env, evm, txs, i)
  {
    assert txs[..n][..i] == txs[..i];
  }

  lemma AllExecuteSnoc(x: Exec, env: BlockEnv, evm: Evm, txs: seq<(Tx, Compression)>)
    requires txs != []
    ensures AllExecute(x, env, evm, txs)
            <==> AllExecute(x, env, evm, txs[..|txs| - 1]) && ExecutesAt(x, env, evm, txs, |txs| - 1)
  {
    var n := |txs| - 1;
    forall i | 0 <= i < n ensures ExecutesAt(x, env, evm, txs[..n], i) == ExecutesAt(x, env, evm, txs, i) {
      ExecutesAtPrefix(x, env, evm, txs, n, i);
    }
  }

  lemma {:induction false} RunTxsSucceedsIff(x: Exec, env: BlockEnv, evm: Evm, txs: seq<(Tx, Compression)>)
    ensures RunTxs(x, env, evm, txs).1 == None <==> AllExecute(x, env, evm, txs)
    decreases |txs|
  {
    if txs != [] {
      RunTxsSucceedsIff(x, env, evm, txs[..|txs| - 1]);
      AllExecuteSnoc(x, env, evm, txs);
    }
  }

  /**
   A block succeeds exactly when it prepares, there is one compression info per transaction, and each
   transaction executes with its own info in the state its predecessors left.
   */
  lemma BlockSucceedsIff(x: Exec, env: BlockEnv, evm: Evm, budget: nat, txs: seq<Tx>, infos: seq<(nat, nat)>)
    ensures BlockResult(x, env, evm, budget, txs, infos).1 == None
            <==> && PreExecution(x, env, evm, budget).1 == None && |txs| == |infos|
                 && AllExecute(PreExecution(x, env, evm, budget).0, env, evm, Paired(txs, infos))
  {
    RunTxsSucceedsIff(PreExecution(x, env, evm, budget).0, env, evm, Paired(txs, infos));
  }

  /** The receipts added since `x` are those of `txs`: its kind, no L1 fee for a message, gas within its limit. */
  predicate ReceiptsFit(x: Exec, y: Exec, txs: seq<(Tx, Compression)>) {
    && |y.receipts| == |x.receipts| + |txs| && |y.spent| == |x.spent| + |txs|
    && forall i :: 0 <= i < |txs| ==>
                     var (r, tx) := (y.receipts[|x.receipts| + i], txs[i].0);
                     && !tx.Blob? && r.isL1Message == tx.L1Message? && (tx.L1Message? ==> r.l1Fee == 0)
                     && y.spent[|x.spent| + i] <= tx.gasLimit
  }

  lemma ReceiptsFitSnoc(x: Exec, y: Exec, env: BlockEnv, evm: Evm, txs: seq<(Tx, Compression)>, tx: (Tx, Compression))
    requires Sound(evm) && ReceiptsFit(x, y, txs) && RunTx(y, env, evm, tx.0, tx.1).1 == None
    ensures ReceiptsFit(x, RunTx(y, env, evm, tx.0, tx.1).0, txs + [tx])
  {
  }

  lemma {:induction false} RunTxsReceipts(x: Exec, env: BlockEnv, evm: Evm, txs: seq<(Tx, Compression)>)
    requires Sound(evm) && GasAccounted(x, env) && RunTxs(x, env, evm, txs).1 == None
    ensures GasAccounted(RunTxs(x, env, evm, txs).0, env) && ReceiptsFit(x, RunTxs(x, env, evm, txs).0, txs)
    decreases |txs|
  {
    if txs != [] {
      var n := |txs| - 1;
      var y := RunTxs(x, env, evm, txs[..n]).0;
      RunTxsReceipts(x, env, evm, txs[..n]);
      TxKeepsGas(y, env, evm, txs[n].0, txs[n].1);
      ReceiptsFitSnoc(x, y, env, evm, txs[..n], txs[n]);
      assert txs == txs[..n] + [txs[n]];
    }
  }

  /**
   A successful block has exactly one receipt per transaction, in order and of its kind, each with the
   running gas; no transaction used more than its limit and the block no more than its own.
   */
  lemma SuccessfulBlockIsAccounted(db: State, env: BlockEnv, evm: Evm, budget: nat, txs: seq<Tx>,
                                   infos: seq<(nat, nat)>)
    requires Sound(evm) && BlockResult(NewExec(db), env, evm, budget, txs, infos).1 == None
    ensures var y := BlockResult(NewExec(db), env, evm, budget, txs, infos).0;
            && GasAccounted(y, env) && |y.receipts| == |txs|
            && (forall i :: 0 <= i < |txs| ==>
                              && y.receipts[i].isL1Message == txs[i].L1Message? && !txs[i].Blob?
                              && (txs[i].L1Message? ==> y.receipts[i].l1Fee == 0) && y.spent[i] <= txs[i].gasLimit)
  {
    var prepared := PreExecution(NewExec(db), env, evm, budget).0;
    PreExecutionKeepsGas(NewExec(db), env, evm, budget);
    RunTxsReceipts(prepared, env, evm, Paired(txs, infos));
    assert forall i :: 0 <= i < |txs| ==> Paired(txs, infos)[i].0 == txs[i];
  }
}
