/** Concrete builds, by an interpreter that meets every assumption, on which a limit or a consensus rule is not kept. */
module PayloadExamples {
  import opened MachineInts
  import opened WorldState
  import opened Transaction
  import opened BlockExecutor
  import opened DraftBlock
  import opened PayloadBuilder
  import opened Payload
  import CW = CodeWitness
  import L1Order

  /** Refuses the transactions with the given hashes; every other one uses one gas, or none if its limit is zero. */
  function Scripted(refused: set<nat>): Evm {
    Evm(s => Some(map[]),
        (s: State, tx: Tx, info: Compression, checks: Checks) =>
          if tx.hash in refused then Invalid(false) else Executed(Min(1, tx.gasLimit), map[], 0, []))
  }

  lemma ScriptedIsSound(refused: set<nat>)
    ensures Sound(Scripted(refused)) && ConsistentCode(Scripted(refused), h => 0)
  {
  }

  /** A request with nothing but forced transactions, before every fork. */
  function Forcing(forced: seq<ForcedTx>, gasLimit: U64): Request {
    Request(1, {}, 10_000_000, Some(gasLimit), false, true, Some(forced), [], None, [], [], true)
  }

  const UNLIMITED := Config(None, None, 1000)

  function Start(cfg: Config, db: State): Draft {
    Draft(NewExec(db), CW.NewMeter(cfg.maxCodeBytes, U64_MAX).Reset().Accept(), [], [[]])
  }

  lemma NoOps(m: CW.Meter)
    ensures CW.RunOps(m.Reset(), []) == m.Reset()
  {
  }

  lemma Prepared(cfg: Config, evm: Evm, db: State, forced: seq<ForcedTx>, gasLimit: U64)
    ensures Payload.Prepare(cfg, evm, db, 1, Forcing(forced, gasLimit)) == Ok(Start(cfg, db))
  {
    NoOps(CW.NewMeter(cfg.maxCodeBytes, U64_MAX));
  }

  /** What the scripted interpreter makes of a transaction that fits. */
  lemma ScriptedTry(d: Draft, env: BlockEnv, refused: set<nat>, tx: Tx)
    requires d.exec.gasUsed <= env.gasLimit && tx.gasLimit <= env.gasLimit - d.exec.gasUsed && !tx.Blob?
    ensures var (e, r) := Try(d, env, Scripted(refused), tx);
            if tx.hash in refused
            then r == Err(InvalidTx(false)) && e.exec.gasUsed == d.exec.gasUsed && e.body == d.body
            else && r == Ok(Some(Min(1, tx.gasLimit))) && e.body == d.body + [tx]
                 && e.exec.gasUsed == WrapAdd(d.exec.gasUsed, Min(1, tx.gasLimit))
  {
    NoOps(d.meter);
  }

  /** A forced loop that is at gas `used` after committing `body`, and still going. */
  predicate At(p: Progress, used: U64, body: seq<Tx>) {
    p.stop.None? && p.totals.gas == used == p.draft.exec.gasUsed && p.draft.body == body
  }

  lemma ScriptedStep(p: Progress, cfg: Config, env: BlockEnv, refused: set<nat>, tx: Tx, used: U64, body: seq<Tx>)
    requires At(p, used, body) && used + tx.gasLimit <= env.gasLimit && !tx.Blob?
    ensures var q := ForcedStep(p, cfg, env, Scripted(refused), ForcedTx(tx, true));
            if tx.hash in refused then At(q, used, body) else At(q, used + Min(1, tx.gasLimit), body + [tx])
  {
    ScriptedTry(p.draft, env, refused, tx);
  }

  lemma RunForcedSnoc(p: Progress, cfg: Config, env: BlockEnv, evm: Evm, forced: seq<ForcedTx>, f: ForcedTx)
    ensures RunForced(p, cfg, env, evm, forced + [f])
            == ForcedStep(RunForced(p, cfg, env, evm, forced), cfg, env, evm, f)
  {
    assert (forced + [f])[..|forced + [f]| - 1] == forced;
  }

  lemma RunTwo(p: Progress, cfg: Config, env: BlockEnv, evm: Evm, f0: ForcedTx, f1: ForcedTx)
    ensures RunForced(p, cfg, env, evm, [f0, f1]) == ForcedStep(ForcedStep(p, cfg, env, evm, f0), cfg, env, evm, f1)
  {
    RunForcedSnoc(p, cfg, env, evm, [], f0);
    RunForcedSnoc(p, cfg, env, evm, [f0], f1);
    assert [] + [f0] == [f0] && [f0] + [f1] == [f0, f1];
  }

  /** A build whose forced loop ran to the end is sealed as it is. */
  lemma Sealed(cfg: Config, evm: Evm, db: State, forced: seq<ForcedTx>, gasLimit: U64, used: U64, body: seq<Tx>)
    requires cfg.maxDa.Some? ==> ForcedDaBytes(forced) <= cfg.maxDa.value
    requires var env := EnvOf(cfg, Forcing(forced, gasLimit));
             At(RunForced(FirstPoint(Start(cfg, db)), cfg, env, evm, forced), used, body)
    ensures var (o, block) := Build(cfg, evm, db, 1, Forcing(forced, gasLimit)); o.Freeze? && block.body == body
  {
    Prepared(cfg, evm, db, forced, gasLimit);
    var p := RunForced(FirstPoint(Start(cfg, db)), cfg, EnvOf(cfg, Forcing(forced, gasLimit)), evm, forced);
    NoOps(p.draft.meter);
  }

  // ----- The order of L1 messages -----------------------------------------------------------------------

  function Message(i: U64): Tx { L1Message(i, 0, 0, i) }

  /**
   The interpreter refuses the middle one of three L1 messages: the build drops it silently, and the
   payload does not pass the node's own order rule.
   */
  lemma RefusedMiddleMessageBreaksTheOrder(db: State)
    ensures var forced := [ForcedTx(Message(0), true), ForcedTx(Message(1), true), ForcedTx(Message(2), true)];
            var (o, block) := Build(UNLIMITED, Scripted({1}), db, 1, Forcing(forced, 1_000_000));
            o.Freeze? && block.body == [Message(0), Message(2)] && !L1Order.WellOrdered(block.body)
    ensures Sound(Scripted({1})) && ConsistentCode(Scripted({1}), h => 0)
  {
    var f0, f1, f2 := ForcedTx(Message(0), true), ForcedTx(Message(1), true), ForcedTx(Message(2), true);
    var env, evm := EnvOf(UNLIMITED, Forcing([f0, f1, f2], 1_000_000)), Scripted({1});
    var p := FirstPoint(Start(UNLIMITED, db));
    RunTwo(p, UNLIMITED, env, evm, f0, f1);
    RunForcedSnoc(p, UNLIMITED, env, evm, [f0, f1], f2);
    assert [f0, f1] + [f2] == [f0, f1, f2];
    ThreeMessages(p, UNLIMITED, env);
    Sealed(UNLIMITED, evm, db, [f0, f1, f2], 1_000_000, 0, [Message(0), Message(2)]);
    GapIsNotWellOrdered();
    ScriptedIsSound({1});
  }

  lemma ThreeMessages(p: Progress, cfg: Config, env: BlockEnv)
    requires At(p, 0, [])
    ensures var q := ForcedStep(p, cfg, env, Scripted({1}), ForcedTx(Message(0), true));
            var r := ForcedStep(q, cfg, env, Scripted({1}), ForcedTx(Message(1), true));
            At(ForcedStep(r, cfg, env, Scripted({1}), ForcedTx(Message(2), true)), 0, [Message(0), Message(2)])
  {
    var q := ForcedStep(p, cfg, env, Scripted({1}), ForcedTx(Message(0), true));
    var r := ForcedStep(q, cfg, env, Scripted({1}), ForcedTx(Message(1), true));
    ScriptedStep(p, cfg, env, {1}, Message(0), 0, []);
    assert [] + [Message(0)] == [Message(0)];
    ScriptedStep(q, cfg, env, {1}, Message(1), 0, [Message(0)]);
    ScriptedStep(r, cfg, env, {1}, Message(2), 0, [Message(0)]);
    assert [Message(0)] + [Message(2)] == [Message(0), Message(2)];
  }

  lemma GapIsNotWellOrdered()
    ensures !L1Order.WellOrdered([Message(0), Message(2)])
  {
    var txs := [Message(0), Message(2)];
    assert txs[0] == Message(0) && txs[1] == Message(2);
  }

  // ----- Gas ------------------------------------------------------------------------------------------------

  function Call(hash: nat, gasLimit: U64, length: U64): Tx { L2(hash, gasLimit, length) }

  /**
   With the block gas limit overridden to 2^64 - 1 the builder's saturating guard lets a second
   transaction through that the executor then refuses, and the whole build fails.
   */
  lemma OverflowingGasFailsTheBuild(db: State)
    ensures var forced := [ForcedTx(Call(0, 1, 0), true), ForcedTx(Call(1, U64_MAX, 0), true)];
            Build(UNLIMITED, Scripted({}), db, 1, Forcing(forced, U64_MAX)).0
            == NotBuilt(EvmError(GasLimitMoreThanAvailable(U64_MAX, U64_MAX - 1)))
    ensures Sound(Scripted({})) && ConsistentCode(Scripted({}), h => 0)
  {
    var f0, f1 := ForcedTx(Call(0, 1, 0), true), ForcedTx(Call(1, U64_MAX, 0), true);
    var env, evm := EnvOf(UNLIMITED, Forcing([f0, f1], U64_MAX)), Scripted({});
    var p := FirstPoint(Start(UNLIMITED, db));
    RunTwo(p, UNLIMITED, env, evm, f0, f1);
    ScriptedStep(p, UNLIMITED, env, {}, f0.tx, 0, []);
    Prepared(UNLIMITED, evm, db, [f0, f1], U64_MAX);
    ScriptedIsSound({});
  }

  // ----- EIP-2718 bytes -----------------------------------------------------------------------------------------

  const BYTES_AT_MAXIMUM := Config(None, Some(U64_MAX), 1000)

  /** At a byte limit of 2^64 - 1 a payload can be longer than its limit. */
  lemma OverflowingBytesExceedTheLimit(db: State)
    ensures var forced := [ForcedTx(Call(0, 0, U64_MAX), true), ForcedTx(Call(1, 0, 1), true)];
            var (o, block) := Build(BYTES_AT_MAXIMUM, Scripted({}), db, 1, Forcing(forced, 1_000_000));
            o.Freeze? && LengthOf(block.body) == U64_MAX + 1
    ensures Sound(Scripted({})) && ConsistentCode(Scripted({}), h => 0)
  {
    var f0, f1 := ForcedTx(Call(0, 0, U64_MAX), true), ForcedTx(Call(1, 0, 1), true);
    var cfg, evm := BYTES_AT_MAXIMUM, Scripted({});
    var env, p := EnvOf(cfg, Forcing([f0, f1], 1_000_000)), FirstPoint(Start(cfg, db));
    RunTwo(p, cfg, env, evm, f0, f1);
    TwoCalls(p, cfg, env, f0.tx, f1.tx);
    Sealed(cfg, evm, db, [f0, f1], 1_000_000, 0, [f0.tx, f1.tx]);
    LengthOfTwo(f0.tx, f1.tx);
    ScriptedIsSound({});
  }

  lemma LengthOfTwo(a: Tx, b: Tx)
    ensures LengthOf([a, b]) == a.encodedLength + b.encodedLength
  {
    LengthOfSnoc([], a);
    LengthOfSnoc([a], b);
    assert [] + [a] == [a] && [a] + [b] == [a, b];
  }

  lemma TwoCalls(p: Progress, cfg: Config, env: BlockEnv, a: Tx, b: Tx)
    requires At(p, 0, []) && a.gasLimit == b.gasLimit == 0 && a.L2? && b.L2?
    ensures var q := ForcedStep(p, cfg, env, Scripted({}), ForcedTx(a, true));
            At(ForcedStep(q, cfg, env, Scripted({}), ForcedTx(b, true)), 0, [a, b])
  {
    ScriptedStep(p, cfg, env, {}, a, 0, []);
    assert [] + [a] == [a];
    ScriptedStep(ForcedStep(p, cfg, env, Scripted({}), ForcedTx(a, true)), cfg, env, {}, b, 0, [a]);
    assert [a] + [b] == [a, b];
  }
}
