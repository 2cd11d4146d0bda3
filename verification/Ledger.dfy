/**
 What executing a list of transactions means, in terms of the interpreter's answers alone: each one
 is asked for in the state its predecessors' updates left, and its update, gas and fee are what is
 committed, charged and recorded.
 */
module Ledger {
  import opened MachineInts
  import opened WorldState
  import opened Transaction
  import opened Transitions
  import opened BlockExecutor

  /** What the interpreter makes of a transaction; an L1 message skips the base-fee and nonce checks. */
  function Answer(evm: Evm, s: State, tx: Tx, info: Compression): Verdict {
    evm.transact(s, tx, info, Checks(!tx.L1Message?, !tx.L1Message?))
  }

  predicate AllExecuted(outs: seq<Verdict>) { forall v <- outs :: v.Executed? }

  function UpdatesOf(outs: seq<Verdict>): (us: seq<Update>)
    requires AllExecuted(outs)
    ensures |us| == |outs|
  {
    if outs == [] then [] else UpdatesOf(outs[..|outs| - 1]) + [outs[|outs| - 1].update]
  }

  function GasOf(outs: seq<Verdict>): (gas: seq<U64>)
    requires AllExecuted(outs)
    ensures |gas| == |outs|
  {
    if outs == [] then [] else GasOf(outs[..|outs| - 1]) + [outs[|outs| - 1].gasUsed]
  }

  /** Gas used by the first `i` of `outs`, on top of `used`. */
  function GasBefore(used: nat, outs: seq<Verdict>, i: nat): nat
    requires AllExecuted(outs) && i <= |outs|
  {
    used + SumOf(GasOf(outs[..i]))
  }

  /** The i-th transaction fits the gas left, is no blob, and gets the i-th answer in its predecessors' state. */
  predicate ExecutesNth(s: State, used: nat, gasLimit: U64, evm: Evm, txs: seq<(Tx, Compression)>,
                        outs: seq<Verdict>, i: nat)
    requires AllExecuted(outs) && i < |outs| == |txs|
  {
    && GasBefore(used, outs, i) + txs[i].0.gasLimit <= gasLimit && !txs[i].0.Blob?
    && outs[i] == Answer(evm, CommitAll(s, UpdatesOf(outs[..i])), txs[i].0, txs[i].1)
  }

  ghost predicate Executes(s: State, used: nat, gasLimit: U64, evm: Evm, txs: seq<(Tx, Compression)>,
                           outs: seq<Verdict>)
  {
    && AllExecuted(outs) && |outs| == |txs|
    && forall i :: 0 <= i < |txs| ==> ExecutesNth(s, used, gasLimit, evm, txs, outs, i)
  }

  /** The receipt of the i-th transaction. */
  predicate Receipted(r: Receipt, used: nat, tx: Tx, outs: seq<Verdict>, i: nat)
    requires AllExecuted(outs) && i < |outs|
  {
    && r.isL1Message == tx.L1Message? && r.cumulativeGasUsed == GasBefore(used, outs, i + 1)
    && r.l1Fee == if tx.L1Message? then 0 else outs[i].l1Fee
  }

  /** `y` is `x` after the transactions: their updates, and nothing else, were committed, reported and charged. */
  predicate Booked(x: Exec, y: Exec, txs: seq<(Tx, Compression)>, outs: seq<Verdict>) {
    && AllExecuted(outs) && |outs| == |txs|
    && y.db == CommitAll(x.db, UpdatesOf(outs)) && y.commits == x.commits + UpdatesOf(outs)
    && y.hook == (if x.hook.Some? then Some(x.hook.value + UpdatesOf(outs)) else None)
    && y.spent == x.spent + GasOf(outs) && y.gasUsed == GasBefore(x.gasUsed, outs, |outs|)
    && |y.receipts| == |x.receipts| + |txs| && y.receipts[..|x.receipts|] == x.receipts
    && forall i :: 0 <= i < |txs| ==> Receipted(y.receipts[|x.receipts| + i], x.gasUsed, txs[i].0, outs, i)
  }

  /** Why a transaction is not executed, if it is not. */
  function Refusal(evm: Evm, s: State, used: nat, gasLimit: U64, tx: Tx, info: Compression): Option<ExecError>
    requires used <= gasLimit
  {
    if used + tx.gasLimit > gasLimit then Some(GasLimitMoreThanAvailable(tx.gasLimit, gasLimit - used))
    else if tx.Blob? then Some(InvalidTx(false))
    else
      match Answer(evm, s, tx, info)
      case Executed(_, _, _, _) => None
      case Invalid(low) => Some(InvalidTx(low))
      case Failed(seen) => Some(EvmFailure(seen))
  }

  // ----- One transaction -------------------------------------------------------------------------------------

  /**
   A transaction executes exactly when nothing refuses it, and then what the interpreter returned, for
   this state, this info and these checks, is what is committed; a refused one changes nothing but the checks.
   */
  lemma RunTxBooks(x: Exec, env: BlockEnv, evm: Evm, tx: Tx, info: Compression)
    requires Sound(evm) && x.gasUsed <= env.gasLimit
    ensures var (y, e) := RunTx(x, env, evm, tx, info);
            && e == Refusal(evm, x.db, x.gasUsed, env.gasLimit, tx, info)
            && (e.Some? ==> y.(checks := x.checks) == x)
            && (e == None ==> var out := Answer(evm, x.db, tx, info);
                              && y.db == Commit(x.db, out.update) && y.commits == x.commits + [out.update]
                              && y.hook == (if x.hook.Some? then Some(x.hook.value + [out.update]) else None)
                              && y.spent == x.spent + [out.gasUsed] && y.gasUsed == x.gasUsed + out.gasUsed
                              && y.gasUsed <= env.gasLimit
                              && y.receipts == x.receipts + [Receipt(tx.L1Message?, x.gasUsed + out.gasUsed,
                                                                     if tx.L1Message? then 0 else out.l1Fee)])
  {
  }

  // ----- Lists ---------------------------------------------------------------------------------------------------

  lemma OutsSnoc(outs: seq<Verdict>, out: Verdict)
    requires AllExecuted(outs) && out.Executed?
    ensures AllExecuted(outs + [out]) && UpdatesOf(outs + [out]) == UpdatesOf(outs) + [out.update]
    ensures GasOf(outs + [out]) == GasOf(outs) + [out.gasUsed]
    ensures forall i :: 0 <= i <= |outs| ==> (outs + [out])[..i] == outs[..i]
  {
    UpdatesSnoc(outs, out);
    GasListSnoc(outs, out);
  }

  lemma UpdatesSnoc(outs: seq<Verdict>, out: Verdict)
    requires AllExecuted(outs) && AllExecuted(outs + [out])
    ensures UpdatesOf(outs + [out]) == UpdatesOf(outs) + [out.update]
  {
    assert (outs + [out])[..|outs + [out]| - 1] == outs;
  }

  lemma GasListSnoc(outs: seq<Verdict>, out: Verdict)
    requires AllExecuted(outs) && AllExecuted(outs + [out])
    ensures GasOf(outs + [out]) == GasOf(outs) + [out.gasUsed]
  {
    assert (outs + [out])[..|outs + [out]| - 1] == outs;
  }

  lemma GasSnoc(outs: seq<Verdict>, out: Verdict, used: nat)
    requires AllExecuted(outs) && out.Executed? && AllExecuted(outs + [out])
    ensures GasBefore(used, outs + [out], |outs| + 1) == GasBefore(used, outs, |outs|) + out.gasUsed
    ensures forall i :: 0 <= i <= |outs| ==> GasBefore(used, outs + [out], i) == GasBefore(used, outs, i)
  {
    var all := outs + [out];
    OutsSnoc(outs, out);
    assert all[..|all|] == all && outs[..|outs|] == outs;
    SumSnoc(GasOf(outs), out.gasUsed);
  }

  lemma SumSnoc(gas: seq<U64>, last: U64)
    ensures SumOf(gas + [last]) == SumOf(gas) + last
  {
    assert (gas + [last])[..|gas + [last]| - 1] == gas;
  }

  lemma ExecutesSnoc(s: State, used: nat, gasLimit: U64, evm: Evm, txs: seq<(Tx, Compression)>, outs: seq<Verdict>,
                     tx: (Tx, Compression), out: Verdict)
    requires Executes(s, used, gasLimit, evm, txs, outs) && out.Executed? && !tx.0.Blob?
    requires GasBefore(used, outs, |outs|) + tx.0.gasLimit <= gasLimit
    requires out == Answer(evm, CommitAll(s, UpdatesOf(outs)), tx.0, tx.1)
    ensures Executes(s, used, gasLimit, evm, txs + [tx], outs + [out])
  {
    OutsSnoc(outs, out);
    GasSnoc(outs, out, used);
    forall i | 0 <= i < |txs| + 1 ensures ExecutesNth(s, used, gasLimit, evm, txs + [tx], outs + [out], i) {
      if i < |txs| {
        assert ExecutesNth(s, used, gasLimit, evm, txs, outs, i);
      } else {
        assert outs[..i] == outs;
      }
    }
  }

  lemma BookedSnoc(x: Exec, y: Exec, z: Exec, txs: seq<(Tx, Compression)>, outs: seq<Verdict>,
                   tx: (Tx, Compression), out: Verdict)
    requires Booked(x, y, txs, outs) && out.Executed? && y.gasUsed + out.gasUsed <= U64_MAX
    requires z.db == Commit(y.db, out.update) && z.commits == y.commits + [out.update]
    requires z.hook == if y.hook.Some? then Some(y.hook.value + [out.update]) else None
    requires z.spent == y.spent + [out.gasUsed] && z.gasUsed == y.gasUsed + out.gasUsed
    requires z.receipts == y.receipts + [Receipt(tx.0.L1Message?, y.gasUsed + out.gasUsed,
                                                 if tx.0.L1Message? then 0 else out.l1Fee)]
    ensures Booked(x, z, txs + [tx], outs + [out])
  {
    OutsSnoc(outs, out);
    GasSnoc(outs, out, x.gasUsed);
    CommitAllSnoc(x.db, UpdatesOf(outs), out.update);
    Grouped(x.commits, UpdatesOf(outs), [out.update]);
    if x.hook.Some? { Grouped(x.hook.value, UpdatesOf(outs), [out.update]); }
    Grouped(x.spent, GasOf(outs), [out.gasUsed]);
    ReceiptsSnoc(x, y, z, txs, outs, tx, out);
  }

  lemma Grouped<T>(a: seq<T>, b: seq<T>, c: seq<T>)
    ensures (a + b) + c == a + (b + c)
  {
  }

  lemma ReceiptsSnoc(x: Exec, y: Exec, z: Exec, txs: seq<(Tx, Compression)>, outs: seq<Verdict>,
                     tx: (Tx, Compression), out: Verdict)
    requires Booked(x, y, txs, outs) && out.Executed? && y.gasUsed + out.gasUsed <= U64_MAX
    requires z.receipts == y.receipts + [Receipt(tx.0.L1Message?, y.gasUsed + out.gasUsed,
                                                 if tx.0.L1Message? then 0 else out.l1Fee)]
    ensures AllExecuted(outs + [out]) && z.receipts[..|x.receipts|] == x.receipts
    ensures forall i :: 0 <= i < |txs| + 1 ==>
                          Receipted(z.receipts[|x.receipts| + i], x.gasUsed, (txs + [tx])[i].0, outs + [out], i)
  {
    GasSnoc(outs, out, x.gasUsed);
    assert z.receipts[..|x.receipts|] == y.receipts[..|x.receipts|];
    forall i | 0 <= i < |txs| + 1
      ensures Receipted(z.receipts[|x.receipts| + i], x.gasUsed, (txs + [tx])[i].0, outs + [out], i)
    {
      if i < |txs| { assert Receipted(y.receipts[|x.receipts| + i], x.gasUsed, txs[i].0, outs, i); }
    }
  }

  /**
   However far the list ran, what it left is booked from the answers `outs`; it stopped at the first
   transaction that is refused in the state its predecessors left, with that refusal.
   */
  ghost predicate RunBooked(x: Exec, env: BlockEnv, evm: Evm, txs: seq<(Tx, Compression)>, outs: seq<Verdict>)
    requires x.gasUsed <= env.gasLimit
  {
    var (y, e) := RunTxs(x, env, evm, txs);
    && y.gasUsed <= env.gasLimit && |outs| <= |txs| && (e == None <==> |outs| == |txs|)
    && Executes(x.db, x.gasUsed, env.gasLimit, evm, txs[..|outs|], outs)
    && Booked(x, y, txs[..|outs|], outs)
    && (e.Some? ==> e == Refusal(evm, y.db, y.gasUsed, env.gasLimit, txs[|outs|].0, txs[|outs|].1))
  }

  /** Every run of a list is booked. */
  lemma {:induction false} RunTxsIsBooked(x: Exec, env: BlockEnv, evm: Evm, txs: seq<(Tx, Compression)>)
    returns (outs: seq<Verdict>)
    requires Sound(evm) && x.gasUsed <= env.gasLimit
    ensures RunBooked(x, env, evm, txs, outs)
    decreases |txs|
  {
    if txs == [] {
      outs := [];
      NothingBooked(x);
    } else {
      var prefix, last := txs[..|txs| - 1], txs[|txs| - 1];
      assert txs == prefix + [last];
      outs := RunTxsIsBooked(x, env, evm, prefix);
      outs := RunBookedSnoc(x, env, evm, prefix, outs, last);
    }
  }

  lemma RunBookedSnoc(x: Exec, env: BlockEnv, evm: Evm, txs: seq<(Tx, Compression)>, given: seq<Verdict>,
                      tx: (Tx, Compression)) returns (outs: seq<Verdict>)
    requires Sound(evm) && x.gasUsed <= env.gasLimit && RunBooked(x, env, evm, txs, given)
    ensures RunBooked(x, env, evm, txs + [tx], outs)
  {
    var (y, e) := RunTxs(x, env, evm, txs);
    var all := txs + [tx];
    assert all[..|all| - 1] == txs && all[..|all|] == all && all[..|given|] == txs[..|given|];
    outs := given;
    if e == None {
      assert txs[..|given|] == txs;
      outs := BookOneMore(x, y, env, evm, txs, given, tx);
    }
  }

  lemma NothingBooked(x: Exec)
    ensures Booked(x, x, [], [])
  {
    assert x.hook.Some? ==> x.hook.value + [] == x.hook.value;
    assert x.receipts[..|x.receipts|] == x.receipts && GasOf([][..0]) == [];
  }

  lemma BookOneMore(x: Exec, y: Exec, env: BlockEnv, evm: Evm, txs: seq<(Tx, Compression)>, given: seq<Verdict>,
                    tx: (Tx, Compression)) returns (outs: seq<Verdict>)
    requires Sound(evm) && y.gasUsed <= env.gasLimit && Booked(x, y, txs, given)
    requires Executes(x.db, x.gasUsed, env.gasLimit, evm, txs, given)
    ensures var (z, e) := RunTx(y, env, evm, tx.0, tx.1);
            && z.gasUsed <= env.gasLimit
            && (e == None ==> && |outs| == |txs| + 1 && Booked(x, z, txs + [tx], outs)
                              && Executes(x.db, x.gasUsed, env.gasLimit, evm, txs + [tx], outs))
            && (e.Some? ==> && outs == given && Booked(x, z, txs, outs) && z.gasUsed == y.gasUsed
                            && e == Refusal(evm, z.db, z.gasUsed, env.gasLimit, tx.0, tx.1))
  {
    var (z, e) := RunTx(y, env, evm, tx.0, tx.1);
    RunTxBooks(y, env, evm, tx.0, tx.1);
    outs := given;
    if e == None {
      var out := Answer(evm, y.db, tx.0, tx.1);
      ExecutesSnoc(x.db, x.gasUsed, env.gasLimit, evm, txs, given, tx, out);
      BookedSnoc(x, y, z, txs, given, tx, out);
      outs := given + [out];
    } else {
      SameBooks(x, y, z, txs, given);
    }
  }

  lemma SameBooks(x: Exec, y: Exec, z: Exec, txs: seq<(Tx, Compression)>, outs: seq<Verdict>)
    requires Booked(x, y, txs, outs) && z.(checks := y.checks) == y
    ensures Booked(x, z, txs, outs)
  {
    assert z.receipts == y.receipts;
  }

  lemma {:induction false} ExecutesIsUnique(s: State, used: nat, gasLimit: U64, evm: Evm,
                                            txs: seq<(Tx, Compression)>, a: seq<Verdict>, b: seq<Verdict>, n: nat)
    requires Executes(s, used, gasLimit, evm, txs, a) && n <= |b| <= |txs|
    requires Executes(s, used, gasLimit, evm, txs[..|b|], b)
    ensures a[..n] == b[..n]
  {
    if n > 0 {
      ExecutesIsUnique(s, used, gasLimit, evm, txs, a, b, n - 1);
      assert ExecutesNth(s, used, gasLimit, evm, txs, a, n - 1);
      assert ExecutesNth(s, used, gasLimit, evm, txs[..|b|], b, n - 1);
      assert a[..n] == a[..n - 1] + [a[n - 1]] && b[..n] == b[..n - 1] + [b[n - 1]];
    }
  }

  /** A list runs to its end exactly when the interpreter executes each transaction after its predecessors. */
  lemma RunTxsSucceedsIffExecutes(x: Exec, env: BlockEnv, evm: Evm, txs: seq<(Tx, Compression)>)
    requires Sound(evm) && x.gasUsed <= env.gasLimit
    ensures RunTxs(x, env, evm, txs).1 == None
            <==> exists outs :: Executes(x.db, x.gasUsed, env.gasLimit, evm, txs, outs)
  {
    var ran := RunTxsIsBooked(x, env, evm, txs);
    var (y, e) := RunTxs(x, env, evm, txs);
    if e == None {
      assert txs[..|ran|] == txs;
    } else if outs :| Executes(x.db, x.gasUsed, env.gasLimit, evm, txs, outs) {
      ExecutesIsUnique(x.db, x.gasUsed, env.gasLimit, evm, txs, outs, ran, |ran|);
      assert ran[..|ran|] == ran;
      NotRefused(x.db, x.gasUsed, env.gasLimit, evm, txs, outs, |ran|);
    }
  }

  lemma NotRefused(s: State, used: nat, gasLimit: U64, evm: Evm, txs: seq<(Tx, Compression)>, outs: seq<Verdict>,
                   i: nat)
    requires Executes(s, used, gasLimit, evm, txs, outs) && i < |txs|
    ensures GasBefore(used, outs, i) <= gasLimit
    ensures Refusal(evm, CommitAll(s, UpdatesOf(outs[..i])), GasBefore(used, outs, i), gasLimit, txs[i].0, txs[i].1)
            == None
  {
    assert ExecutesNth(s, used, gasLimit, evm, txs, outs, i);
    assert outs[i] in outs;
  }

  /** Once every transaction with an info has executed, a missing info is an error, and so is a surplus one. */
  lemma UnpairedInfosFail(x: Exec, env: BlockEnv, evm: Evm, budget: nat, txs: seq<Tx>, infos: seq<(nat, nat)>)
    ensures var (prepared, failed) := PreExecution(x, env, evm, budget);
            var (y, e) := RunTxs(prepared, env, evm, Paired(txs, infos));
            var r := BlockResult(x, env, evm, budget, txs, infos).1;
            && (failed.Some? ==> r == failed) && (failed == None && e.Some? ==> r == e)
            && (failed == None && e == None ==> (r == Some(FewerCompressionInfos) <==> |infos| < |txs|)
                                                && (r == Some(MoreCompressionInfos) <==> |infos| > |txs|))
  {
  }

  // ----- Blocks ---------------------------------------------------------------------------------------------------

  /** The state in which the first transaction of a block runs. */
  function PreparedState(s: State, env: BlockEnv, evm: Evm): State {
    var forked := PreBlock(env.active, s);
    if Feynman in env.active && env.number != 0 && evm.blockHashesCall(forked).Some?
    then Commit(forked, evm.blockHashesCall(forked).value) else forked
  }

  /**
   A successful block is the fold of the interpreter's answers: the forks' transitions and the system
   call, then each transaction with its own info, and nothing else, changed the parent state.
   */
  lemma BlockIsBooked(db: State, env: BlockEnv, evm: Evm, budget: nat, txs: seq<Tx>, infos: seq<(nat, nat)>)
    returns (outs: seq<Verdict>)
    requires Sound(evm) && BlockResult(NewExec(db), env, evm, budget, txs, infos).1 == None
    ensures Executes(PreparedState(db, env, evm), 0, env.gasLimit, evm, Paired(txs, infos), outs)
    ensures var y := BlockResult(NewExec(db), env, evm, budget, txs, infos).0;
            && |outs| == |txs| == |infos|
            && y.db == CommitAll(PreparedState(db, env, evm), UpdatesOf(outs))
            && y.spent == GasOf(outs) && |y.receipts| == |txs|
            && forall i :: 0 <= i < |txs| ==> Receipted(y.receipts[i], 0, txs[i], outs, i)
  {
    var prepared := PreExecution(NewExec(db), env, evm, budget).0;
    var pairs := Paired(txs, infos);
    PreExecutionKeepsGas(NewExec(db), env, evm, budget);
    PreExecutionRunsTheStages(NewExec(db), env, evm, budget);
    assert prepared.db == PreparedState(db, env, evm);
    outs := RunTxsIsBooked(prepared, env, evm, pairs);
    assert pairs[..|outs|] == pairs;
    var y := RunTxs(prepared, env, evm, pairs).0;
    assert prepared.receipts == [] && prepared.spent == [];
    forall i | 0 <= i < |txs| ensures Receipted(y.receipts[i], 0, txs[i], outs, i) {
      assert Receipted(y.receipts[|prepared.receipts| + i], prepared.gasUsed, pairs[i].0, outs, i);
    }
  }
}
