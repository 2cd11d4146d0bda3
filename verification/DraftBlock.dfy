/**
 The block under construction: the executor, the code meter and the transaction list, and the one
 operation on them, `execute_with_code_budget`, which executes a candidate and commits it only if
 its code fits. The inspector's hooks are the `ops` of an execution; once a limit is exceeded the
 rest of them cannot change the verdict, and the result is dropped. An execution that the meter
 halts does not get as far as a database read that would have failed later.
 */
module DraftBlock {
  import opened MachineInts
  import opened Transaction
  import opened BlockExecutor
  import CW = CodeWitness

  /** `body` lists the committed transactions, `metered` the operations accepted by the meter. */
  datatype Draft = Draft(exec: Exec, meter: CW.Meter, body: seq<Tx>, metered: seq<seq<CW.Op>>)

  type TryResult = Result<Option<U64>, ExecError>

  /** What the inspector saw of an execution: all of it, or what came before the failing read. */
  function SeenBy(r: Result<TxResult, ExecError>): seq<CW.Op> {
    match r
    case Ok(out) => out.ops
    case Err(EvmFailure(seen)) => seen
    case Err(_) => []
  }

  /** `execute_with_code_budget`: `Ok(None)` when the code budget was exceeded. */
  function Try(d: Draft, env: BlockEnv, evm: Evm, tx: Tx): (Draft, TryResult) {
    var (x, r) := Execute(d.exec, env, evm, tx, None);
    var m := CW.RunOps(d.meter.Reset(), SeenBy(r));
    if m.exceeded.Some? then (d.(exec := x, meter := m.Reset()), Ok(None))
    else if r.Err? then (d.(exec := x, meter := m.Reset()), Err(r.error))
    else
      var out := r.value;
      (Draft(CommitResult(x, out), m.Accept(), d.body + [tx], d.metered + [out.ops]), Ok(Some(out.gasUsed)))
  }

  predicate Kept(r: TryResult) { r.Ok? && r.value.Some? }

  // ----- Rejected candidates leave no trace ------------------------------------------------------------

  /** What a later candidate can see of a draft: the check flags and the meter's transaction part are reset first. */
  function Visible(d: Draft): Draft {
    d.(exec := d.exec.(checks := Checks(true, true)), meter := d.meter.Reset())
  }

  lemma {:induction false} RunOpsKeepsBlock(m: CW.Meter, ops: seq<CW.Op>)
    ensures CW.RunOps(m, ops).Reset() == m.Reset()
  {
    if ops != [] { RunOpsKeepsBlock(m, ops[..|ops| - 1]); }
  }

  lemma ExecuteSees(x: Exec, y: Exec, env: BlockEnv, evm: Evm, tx: Tx)
    requires x.(checks := y.checks) == y
    ensures Execute(x, env, evm, tx, None).1 == Execute(y, env, evm, tx, None).1
    ensures Execute(x, env, evm, tx, None).0.(checks := y.checks) == y
    ensures Execute(x, env, evm, tx, None).1.Ok?
            ==> Execute(x, env, evm, tx, None).0 == Execute(y, env, evm, tx, None).0
  {
  }

  /** The verdict on a candidate and the draft it leaves depend only on the visible part. */
  lemma TryDependsOnVisible(d: Draft, e: Draft, env: BlockEnv, evm: Evm, tx: Tx)
    requires Visible(d) == Visible(e)
    ensures Try(d, env, evm, tx).1 == Try(e, env, evm, tx).1
    ensures Visible(Try(d, env, evm, tx).0) == Visible(Try(e, env, evm, tx).0)
  {
    ExecuteSees(d.exec, e.exec, env, evm, tx);
    ExecuteSees(e.exec, d.exec, env, evm, tx);
    var seen := SeenBy(Execute(d.exec, env, evm, tx, None).1);
    RunOpsKeepsBlock(d.meter.Reset(), seen);
    RunOpsKeepsBlock(e.meter.Reset(), seen);
  }

  /** A rejected candidate changes nothing visible, so retrying it at once gives the same verdict. */
  lemma RejectionLeavesNoTrace(d: Draft, env: BlockEnv, evm: Evm, tx: Tx)
    requires !Kept(Try(d, env, evm, tx).1)
    ensures Visible(Try(d, env, evm, tx).0) == Visible(d)
    ensures Try(Try(d, env, evm, tx).0, env, evm, tx).1 == Try(d, env, evm, tx).1
  {
    ExecuteSees(d.exec, d.exec, env, evm, tx);
    RunOpsKeepsBlock(d.meter.Reset(), SeenBy(Execute(d.exec, env, evm, tx, None).1));
    TryDependsOnVisible(Try(d, env, evm, tx).0, d, env, evm, tx);
  }

  function TryAll(d: Draft, env: BlockEnv, evm: Evm, txs: seq<Tx>): Draft {
    if txs == [] then d else Try(TryAll(d, env, evm, txs[..|txs| - 1]), env, evm, txs[|txs| - 1]).0
  }

  /** The candidates that were kept, in order. */
  function Survivors(d: Draft, env: BlockEnv, evm: Evm, txs: seq<Tx>): seq<Tx> {
    if txs == [] then []
    else
      var prefix, last := txs[..|txs| - 1], txs[|txs| - 1];
      Survivors(d, env, evm, prefix)
      + if Kept(Try(TryAll(d, env, evm, prefix), env, evm, last).1) then [last] else []
  }

  lemma TryAllSnoc(d: Draft, env: BlockEnv, evm: Evm, txs: seq<Tx>, tx: Tx)
    ensures TryAll(d, env, evm, txs + [tx]) == Try(TryAll(d, env, evm, txs), env, evm, tx).0
    ensures Survivors(d, env, evm, txs + [tx])
            == Survivors(d, env, evm, txs)
               + if Kept(Try(TryAll(d, env, evm, txs), env, evm, tx).1) then [tx] else []
  {
    assert (txs + [tx])[..|txs + [tx]| - 1] == txs;
  }

  /**
   Rejected candidates can be erased: running only the kept ones gives the same database, receipts,
   gas, block code and transaction list, and keeps every one of them again.
   */
  lemma {:induction false} RejectedCanBeErased(d: Draft, env: BlockEnv, evm: Evm, txs: seq<Tx>)
    ensures Visible(TryAll(d, env, evm, Survivors(d, env, evm, txs))) == Visible(TryAll(d, env, evm, txs))
    ensures Survivors(d, env, evm, Survivors(d, env, evm, txs)) == Survivors(d, env, evm, txs)
  {
    if txs != [] {
      var prefix, last := txs[..|txs| - 1], txs[|txs| - 1];
      RejectedCanBeErased(d, env, evm, prefix);
      var all, few := TryAll(d, env, evm, prefix), Survivors(d, env, evm, prefix);
      if Kept(Try(all, env, evm, last).1) {
        TryDependsOnVisible(TryAll(d, env, evm, few), all, env, evm, last);
        TryAllSnoc(d, env, evm, few, last);
        assert Survivors(d, env, evm, txs) == few + [last];
      } else {
        RejectionLeavesNoTrace(all, env, evm, last);
        assert Survivors(d, env, evm, txs) == few;
      }
    }
  }

  // ----- What every draft keeps ----------------------------------------------------------------------------

  /** A code hash determines its code in everything the interpreter records. */
  ghost predicate ConsistentCode(evm: Evm, size: CW.Hash -> U64) {
    forall s, tx, info, checks :: match evm.transact(s, tx, info, checks)
                                  case Executed(_, _, _, ops) => CW.Consistent(ops, size)
                                  case Failed(seen) => CW.Consistent(seen, size)
                                  case Invalid(_) => true
  }

  function LengthOf(txs: seq<Tx>): nat {
    if txs == [] then 0 else LengthOf(txs[..|txs| - 1]) + txs[|txs| - 1].encodedLength
  }

  lemma LengthOfSnoc(txs: seq<Tx>, tx: Tx)
    ensures LengthOf(txs + [tx]) == LengthOf(txs) + tx.encodedLength
  {
    assert (txs + [tx])[..|txs + [tx]| - 1] == txs;
  }

  /** Gas, receipts and transaction list agree; the block's code is accounted for and within its budget. */
  ghost predicate Sane(d: Draft, env: BlockEnv, size: CW.Hash -> U64) {
    && GasAccounted(d.exec, env)
    && |d.body| == |d.exec.spent|
    && (forall i :: 0 <= i < |d.body| ==> d.exec.spent[i] <= d.body[i].gasLimit)
    && (d.meter.maxCodeBytes < U64_MAX ==> CW.Accounted(d.meter, d.metered, size))
  }

  lemma SaneVisible(d: Draft, e: Draft, env: BlockEnv, size: CW.Hash -> U64)
    requires Sane(d, env, size) && Visible(d) == Visible(e)
    ensures Sane(e, env, size)
  {
  }

  lemma TryKeepsSane(d: Draft, env: BlockEnv, evm: Evm, tx: Tx, size: CW.Hash -> U64)
    requires Sound(evm) && ConsistentCode(evm, size) && Sane(d, env, size)
    ensures Sane(Try(d, env, evm, tx).0, env, size)
  {
    if Kept(Try(d, env, evm, tx).1) {
      KeptKeepsSane(d, env, evm, tx, size);
    } else {
      RejectionLeavesNoTrace(d, env, evm, tx);
      SaneVisible(d, Try(d, env, evm, tx).0, env, size);
    }
  }

  lemma MeterKeepsAccounts(m: CW.Meter, metered: seq<seq<CW.Op>>, ops: seq<CW.Op>, size: CW.Hash -> U64)
    requires CW.Consistent(ops, size) && CW.RunOps(m.Reset(), ops).exceeded.None?
    requires m.maxCodeBytes < U64_MAX ==> CW.Accounted(m, metered, size)
    ensures var after := CW.RunOps(m.Reset(), ops).Accept();
            after.maxCodeBytes == m.maxCodeBytes && after.maxSteps == m.maxSteps
            && (after.maxCodeBytes < U64_MAX ==> CW.Accounted(after, metered + [ops], size))
  {
    RunOpsKeepsBlock(m.Reset(), ops);
    var r := CW.RunOps(m.Reset(), ops);
    assert r.maxCodeBytes == r.Reset().maxCodeBytes && r.maxSteps == r.Reset().maxSteps;
    if m.maxCodeBytes < U64_MAX { CW.TryIsAccounted(m, metered, ops, size); }
  }

  lemma KeptKeepsSane(d: Draft, env: BlockEnv, evm: Evm, tx: Tx, size: CW.Hash -> U64)
    requires Sound(evm) && ConsistentCode(evm, size) && Sane(d, env, size)
    requires Kept(Try(d, env, evm, tx).1)
    ensures Sane(Try(d, env, evm, tx).0, env, size)
  {
    var (x, r) := Execute(d.exec, env, evm, tx, None);
    GasAfterCommit(x, env, r.value);
    MeterKeepsAccounts(d.meter, d.metered, r.value.ops, size);
  }

  /** What a kept candidate adds, and that the executor had room for its whole gas limit. */
  lemma KeptAdds(d: Draft, env: BlockEnv, evm: Evm, tx: Tx, size: CW.Hash -> U64)
    requires Sound(evm) && Sane(d, env, size) && Kept(Try(d, env, evm, tx).1)
    ensures var (e, r) := Try(d, env, evm, tx);
            && e.body == d.body + [tx] && !tx.Blob? && r.value.value <= tx.gasLimit
            && e.exec.gasUsed == d.exec.gasUsed + r.value.value && d.exec.gasUsed + tx.gasLimit <= env.gasLimit
  {
  }

  // ----- The block as another node will execute it -----------------------------------------------------------

  function Plain(txs: seq<Tx>): (r: seq<(Tx, Compression)>)
    ensures |r| == |txs| && forall i :: 0 <= i < |r| ==> r[i] == (txs[i], None)
  {
    seq(|txs|, i requires 0 <= i < |txs| => (txs[i], None))
  }

  predicate SameExec(x: Exec, y: Exec) { x.(checks := y.checks) == y }

  /** Executing the body of `e` without a meter, from the executor of `d`, fails nowhere and ends where `e` is. */
  predicate Reexecutes(d: Draft, env: BlockEnv, evm: Evm, e: Draft) {
    var (x, error) := RunTxs(d.exec, env, evm, Plain(e.body));
    error == None && SameExec(x, e.exec)
  }

  lemma ReexecutesStep(d: Draft, env: BlockEnv, evm: Evm, e: Draft, tx: Tx)
    requires Reexecutes(d, env, evm, e)
    ensures Reexecutes(d, env, evm, Try(e, env, evm, tx).0)
  {
    var imported := RunTxs(d.exec, env, evm, Plain(e.body)).0;
    ExecuteSees(imported, e.exec, env, evm, tx);
    ExecuteSees(e.exec, imported, env, evm, tx);
    RunPlainSnoc(d.exec, env, evm, e.body, tx);
    if Kept(Try(e, env, evm, tx).1) { KeptRuns(imported, e, env, evm, tx); }
  }

  lemma RunPlainSnoc(x: Exec, env: BlockEnv, evm: Evm, body: seq<Tx>, tx: Tx)
    requires RunTxs(x, env, evm, Plain(body)).1 == None
    ensures RunTxs(x, env, evm, Plain(body + [tx])) == RunTx(RunTxs(x, env, evm, Plain(body)).0, env, evm, tx, None)
  {
    var all := Plain(body + [tx]);
    assert all[..|all| - 1] == Plain(body);
  }

  /** What a draft commits is what the transaction does without a meter. */
  lemma KeptRuns(x: Exec, e: Draft, env: BlockEnv, evm: Evm, tx: Tx)
    requires SameExec(x, e.exec) && Kept(Try(e, env, evm, tx).1)
    requires Execute(x, env, evm, tx, None) == Execute(e.exec, env, evm, tx, None)
    ensures var (y, error) := RunTx(x, env, evm, tx, None);
            error == None && SameExec(y, Try(e, env, evm, tx).0.exec)
  {
  }

  /** What the inspector sees of each transaction of a list, executed in the state its predecessors left. */
  function SeenOf(x: Exec, env: BlockEnv, evm: Evm, txs: seq<Tx>): (seen: seq<seq<CW.Op>>)
    ensures |seen| == |txs|
  {
    if txs == [] then []
    else
      var prefix, last := txs[..|txs| - 1], txs[|txs| - 1];
      SeenOf(x, env, evm, prefix)
      + [SeenBy(Execute(RunTxs(x, env, evm, Plain(prefix)).0, env, evm, last, None).1)]
  }

  /** The operations that `e` has accepted since `d` are those of the transactions in its body. */
  predicate Records(d: Draft, env: BlockEnv, evm: Evm, e: Draft) {
    e.metered == d.metered + SeenOf(d.exec, env, evm, e.body)
  }

  lemma RecordsStep(d: Draft, env: BlockEnv, evm: Evm, e: Draft, tx: Tx)
    requires Reexecutes(d, env, evm, e) && Records(d, env, evm, e)
    ensures Records(d, env, evm, Try(e, env, evm, tx).0)
  {
    var imported := RunTxs(d.exec, env, evm, Plain(e.body)).0;
    ExecuteSees(imported, e.exec, env, evm, tx);
    SeenOfSnoc(d.exec, env, evm, e.body, tx);
    KeptIsRecorded(e, env, evm, tx, SeenBy(Execute(imported, env, evm, tx, None).1));
  }

  lemma SeenOfSnoc(x: Exec, env: BlockEnv, evm: Evm, body: seq<Tx>, tx: Tx)
    ensures SeenOf(x, env, evm, body + [tx])
            == SeenOf(x, env, evm, body)
               + [SeenBy(Execute(RunTxs(x, env, evm, Plain(body)).0, env, evm, tx, None).1)]
  {
    assert (body + [tx])[..|body + [tx]| - 1] == body;
  }

  lemma KeptIsRecorded(e: Draft, env: BlockEnv, evm: Evm, tx: Tx, seen: seq<CW.Op>)
    requires seen == SeenBy(Execute(e.exec, env, evm, tx, None).1)
    ensures var f := Try(e, env, evm, tx).0;
            if Kept(Try(e, env, evm, tx).1) then f.body == e.body + [tx] && f.metered == e.metered + [seen]
            else f.body == e.body && f.metered == e.metered
  {
  }

  lemma {:induction false} SeenOfAlike(x: Exec, y: Exec, env: BlockEnv, evm: Evm, txs: seq<Tx>)
    requires Alike(x, y)
    ensures SeenOf(x, env, evm, txs) == SeenOf(y, env, evm, txs)
  {
    if txs != [] {
      var prefix, last := txs[..|txs| - 1], txs[|txs| - 1];
      SeenOfAlike(x, y, env, evm, prefix);
      RunTxsAlike(x, y, env, evm, Plain(prefix));
      ExecuteAlike(RunTxs(x, env, evm, Plain(prefix)).0, RunTxs(y, env, evm, Plain(prefix)).0, env, evm, last, None);
    }
  }

  /** Trying the body of `e` again from `d` keeps all of it and ends where `e` is. */
  predicate Replays(d: Draft, env: BlockEnv, evm: Evm, e: Draft) {
    && Survivors(d, env, evm, e.body) == e.body
    && Visible(TryAll(d, env, evm, e.body)) == Visible(e)
  }

  lemma ReplaysStep(d: Draft, env: BlockEnv, evm: Evm, e: Draft, tx: Tx)
    requires Replays(d, env, evm, e)
    ensures Replays(d, env, evm, Try(e, env, evm, tx).0)
  {
    if Kept(Try(e, env, evm, tx).1) {
      TryDependsOnVisible(TryAll(d, env, evm, e.body), e, env, evm, tx);
      TryAllSnoc(d, env, evm, e.body, tx);
    } else {
      RejectionLeavesNoTrace(e, env, evm, tx);
      assert Visible(Try(e, env, evm, tx).0).body == Visible(e).body;
    }
  }

  // ----- The state hook ------------------------------------------------------------------------------------

  /** Every commit of a draft is reported: the hook's log stays the record of what was committed. */
  lemma TryFollows(x: Exec, d: Draft, env: BlockEnv, evm: Evm, tx: Tx)
    requires Follows(x, d.exec)
    ensures Follows(x, Try(d, env, evm, tx).0.exec)
  {
    var (y, r) := Execute(d.exec, env, evm, tx, None);
    FollowsDry(x, d.exec, env, evm, tx, None);
    if r.Ok? { FollowsCommit(x, y, r.value); }
  }

  // ----- The builder object ---------------------------------------------------------------------------------------

  /** Feeds the inspector's operations to the shared meter. */
  method Inspect(meter: CW.CodeWitnessHandle, ops: seq<CW.Op>)
    modifies meter
    ensures meter.View() == CW.RunOps(old(meter.View()), ops)
  {
    for i := 0 to |ops|
      invariant meter.View() == CW.RunOps(old(meter.View()), ops[..i])
    {
      assert ops[..i + 1][..i] == ops[..i];
      match ops[i]
      case Reserve(bytes) => meter.Reserve(bytes);
      case Record(hash, bytes) => meter.Record(hash, bytes);
      case Tick => var proceed := meter.Step();
    }
    assert ops[..|ops|] == ops;
  }

  class BlockBuilder {
    const executor: Executor
    const meter: CW.CodeWitnessHandle
    var body: seq<Tx>
    ghost var metered: seq<seq<CW.Op>>

    ghost function View(): Draft
      reads this, executor, executor.db, meter
    {
      Draft(executor.View(), meter.View(), body, metered)
    }

    constructor (executor: Executor, meter: CW.CodeWitnessHandle)
      ensures this.executor == executor && this.meter == meter
      ensures View() == Draft(executor.View(), meter.View(), [], [])
    {
      this.executor, this.meter, body, metered := executor, meter, [], [];
    }

    /** `execute_with_code_budget` around the library's execute-with-commit-condition. */
    method ExecuteWithCodeBudget(tx: Tx) returns (r: TryResult)
      modifies this, executor, executor.db, meter
      ensures (View(), r) == Try(old(View()), executor.env, executor.evm, tx)
    {
      meter.BeginTransaction();
      var out := executor.ExecuteTransactionWithoutCommit(tx, None);
      Inspect(meter, SeenBy(out));
      if meter.exceeded.Some? {
        meter.RejectTransaction();
        return Ok(None);
      }
      if out.Err? {
        meter.RejectTransaction();
        return Err(out.error);
      }
      var used := executor.CommitTransaction(out.value);
      body := body + [tx];
      var accepted := meter.AcceptTransaction();
      metered := metered + [out.value.ops];
      return Ok(Some(used));
    }
  }
}
