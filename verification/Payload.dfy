/** `build_payload` from the parent header to the finished block, and what every payload it returns satisfies. */
module Payload {
  import opened MachineInts
  import opened WorldState
  import opened Transaction
  import opened BlockExecutor
  import opened DraftBlock
  import opened PayloadBuilder
  import opened Transitions
  import CW = CodeWitness
  import BaseFee
  import GasLimit
  import L1Order

  /**
   What one call is given. `forced` is `None` when the forced list does not decode; `systemOps` and
   `finishOps` are what the meter sees of the system calls; `finishes` is false when sealing fails.
   */
  datatype Request = Request(
    number: U64, active: set<Fork>, parentGasLimit: U64, gasLimit: Option<U64>, trieTask: bool,
    noTxPool: bool, forced: Option<seq<ForcedTx>>, pool: seq<Candidate>, bestFees: Option<nat>,
    systemOps: seq<CW.Op>, finishOps: seq<CW.Op>, finishes: bool)

  datatype Outcome =
    | Freeze(totals: Totals)
    | Better(totals: Totals)
    | Aborted(fees: nat)
    | Cancelled
    | NotBuilt(error: BuildError)

  function EnvOf(cfg: Config, req: Request): BlockEnv {
    BlockEnv(req.number, GasLimit.NextGasLimit(req.gasLimit, cfg.gasLimit, req.parentGasLimit), req.active)
  }

  /** Meters a system phase; `None` when it exceeds the code budget. */
  function MeterSystem(m: CW.Meter, ops: seq<CW.Op>): Option<CW.Meter> {
    var r := CW.RunOps(m.Reset(), ops);
    if r.exceeded.Some? then None else Some(r.Accept())
  }

  /** Up to the first candidate: pre-execution changes and their code. */
  function Prepare(cfg: Config, evm: Evm, db: State, budget: nat, req: Request): Result<Draft, BuildError> {
    var x := NewExec(db).(hook := if req.trieTask then Some([]) else None);
    var (y, e) := PreExecution(x, EnvOf(cfg, req), evm, budget);
    if e.Some? then Err(PreExecutionFailed(e.value))
    else
      match MeterSystem(CW.NewMeter(cfg.maxCodeBytes, U64_MAX), req.systemOps)
      case None => Err(SystemCodeLimit(cfg.maxCodeBytes))
      case Some(m) => Ok(Draft(y, m, [], [req.systemOps]))
  }

  function FirstPoint(d: Draft): Progress { Progress(d, Totals(0, 0, 0), [], [], None) }

  /** The forced loop, the pool loop and the comparison with the best payload so far. */
  function Fill(cfg: Config, env: BlockEnv, evm: Evm, start: Draft, req: Request): Result<Progress, Outcome> {
    if req.forced.None? then Err(NotBuilt(ForcedDecodeFailed))
    else if cfg.maxDa.Some? && ForcedDaBytes(req.forced.value) > cfg.maxDa.value then
      Err(NotBuilt(ForcedDaLimit(ForcedDaBytes(req.forced.value), cfg.maxDa.value)))
    else
      var p := RunForced(FirstPoint(start), cfg, env, evm, req.forced.value);
      if p.stop.Some? then Err(if p.stop.value.Fail? then NotBuilt(p.stop.value.error) else Cancelled)
      else if req.noTxPool then Ok(p)
      else
        var q := RunPool(p, cfg, env, evm, req.pool);
        if q.stop.Some? && q.stop.value.Fail? then Err(NotBuilt(q.stop.value.error))
        else if q.stop == Some(Cancel) then Err(Cancelled)
        else if req.bestFees.Some? && q.totals.fees <= req.bestFees.value then Err(Aborted(q.totals.fees))
        else Ok(q)
  }

  function Seal(cfg: Config, p: Progress, req: Request): (Outcome, Draft) {
    if !req.finishes then (NotBuilt(FinishFailed), p.draft)
    else
      match MeterSystem(p.draft.meter, req.finishOps)
      case None => (NotBuilt(SystemCodeLimit(cfg.maxCodeBytes)), p.draft)
      case Some(m) =>
        var hook := if req.trieTask then None else p.draft.exec.hook;
        (if req.noTxPool then Freeze(p.totals) else Better(p.totals),
         p.draft.(meter := m, metered := p.draft.metered + [req.finishOps], exec := p.draft.exec.(hook := hook)))
  }

  /** From a prepared block on. */
  function Complete(cfg: Config, env: BlockEnv, evm: Evm, start: Draft, req: Request): (Outcome, Draft) {
    match Fill(cfg, env, evm, start, req)
    case Err(o) => (o, start)
    case Ok(p) => Seal(cfg, p, req)
  }

  /** The outcome, and with `Freeze` and `Better` the finished block. */
  function Build(cfg: Config, evm: Evm, db: State, budget: nat, req: Request): (Outcome, Draft) {
    match Prepare(cfg, evm, db, budget, req)
    case Err(e) => (NotBuilt(e), Draft(NewExec(db), CW.NewMeter(cfg.maxCodeBytes, U64_MAX), [], []))
    case Ok(start) => Complete(cfg, EnvOf(cfg, req), evm, start, req)
  }

  // ----- What every payload satisfies ---------------------------------------------------------------------------

  ghost predicate Environment(evm: Evm, req: Request, size: CW.Hash -> U64) {
    Sound(evm) && ConsistentCode(evm, size) && CW.Consistent(req.systemOps, size) && CW.Consistent(req.finishOps, size)
  }

  lemma SystemIsAccounted(m: CW.Meter, metered: seq<seq<CW.Op>>, ops: seq<CW.Op>, size: CW.Hash -> U64)
    requires CW.Consistent(ops, size) && MeterSystem(m, ops).Some?
    requires m.maxCodeBytes < U64_MAX ==> CW.Accounted(m, metered, size)
    ensures var after := MeterSystem(m, ops).value;
            after.maxCodeBytes == m.maxCodeBytes && after.maxSteps == m.maxSteps
            && (after.maxCodeBytes < U64_MAX ==> CW.Accounted(after, metered + [ops], size))
  {
    MeterKeepsAccounts(m, metered, ops, size);
  }

  lemma PreparedIsGood(cfg: Config, evm: Evm, db: State, budget: nat, req: Request, size: CW.Hash -> U64)
    requires Environment(evm, req, size) && Prepare(cfg, evm, db, budget, req).Ok?
    ensures var start := Prepare(cfg, evm, db, budget, req).value;
            && Good(FirstPoint(start), start, EnvOf(cfg, req), evm, size)
            && start.meter.maxCodeBytes == cfg.maxCodeBytes && start.meter.maxSteps == U64_MAX
  {
    var start := Prepare(cfg, evm, db, budget, req).value;
    var m := CW.NewMeter(cfg.maxCodeBytes, U64_MAX);
    PreExecutionKeepsGas(NewExec(db).(hook := if req.trieTask then Some([]) else None), EnvOf(cfg, req), evm, budget);
    SystemIsAccounted(m, [], req.systemOps, size);
    assert [] + [req.systemOps] == [req.systemOps];
    assert Plain([]) == [];
  }

  /** The forced list is within the byte limit before any of it runs, so what is kept of it is too. */
  lemma ForcedWithinDa(cfg: Config, env: BlockEnv, evm: Evm, p: Progress, forced: seq<ForcedTx>)
    requires p.draft.body == [] && (cfg.maxDa.Some? ==> ForcedDaBytes(forced) <= cfg.maxDa.value)
    ensures WithinDa(RunForced(p, cfg, env, evm, forced).draft.body, cfg)
  {
    ForcedDaBytesIsSaturatedSum(forced);
    ForcedBodyIsNoLonger(p, cfg, env, evm, forced);
  }

  lemma LoopsAreGood(cfg: Config, env: BlockEnv, evm: Evm, start: Draft, forced: seq<ForcedTx>, pool: seq<Candidate>,
                     size: CW.Hash -> U64)
    requires Sound(evm) && ConsistentCode(evm, size) && start.body == []
    requires Good(FirstPoint(start), start, env, evm, size)
    requires cfg.maxDa.Some? ==> ForcedDaBytes(forced) <= cfg.maxDa.value
    ensures var p := RunForced(FirstPoint(start), cfg, env, evm, forced);
            var q := RunPool(p, cfg, env, evm, pool);
            && Good(p, start, env, evm, size) && WithinDa(p.draft.body, cfg)
            && Good(q, start, env, evm, size) && WithinDa(q.draft.body, cfg)
  {
    var p := RunForced(FirstPoint(start), cfg, env, evm, forced);
    ForcedIsGood(FirstPoint(start), start, cfg, env, evm, forced, size);
    ForcedWithinDa(cfg, env, evm, FirstPoint(start), forced);
    PoolIsGood(p, start, cfg, env, evm, pool, size);
    PoolWithinDa(p, start, cfg, env, evm, pool, size);
  }

  lemma FillIsGood(cfg: Config, env: BlockEnv, evm: Evm, start: Draft, req: Request, size: CW.Hash -> U64)
    requires Sound(evm) && ConsistentCode(evm, size) && start.body == []
    requires Good(FirstPoint(start), start, env, evm, size) && Fill(cfg, env, evm, start, req).Ok?
    ensures var p := Fill(cfg, env, evm, start, req).value;
            Good(p, start, env, evm, size) && WithinDa(p.draft.body, cfg)
  {
    LoopsAreGood(cfg, env, evm, start, req.forced.value, req.pool, size);
  }

  predicate Built(o: Outcome) { o.Freeze? || o.Better? }

  /**
   Every payload is within its three limits, and its three accounts of gas agree: the builder's total,
   the executor's, which becomes the header's, and the last receipt. Its code bytes are the union of
   the code that its transactions, in order, and the system calls touch. Executing its transactions
   again from the prepared block gives the same database and receipts.
   */
  lemma PayloadIsSound(cfg: Config, evm: Evm, db: State, budget: nat, req: Request, size: CW.Hash -> U64)
    requires Environment(evm, req, size) && Built(Build(cfg, evm, db, budget, req).0)
    ensures var (o, block) := Build(cfg, evm, db, budget, req);
            && o.totals.gas == block.exec.gasUsed <= EnvOf(cfg, req).gasLimit
            && GasUsedMatches(o.totals.gas, block.exec.receipts)
            && |block.exec.receipts| == |block.body|
            && WithinDa(block.body, cfg)
            && (cfg.maxCodeBytes < U64_MAX ==>
                  block.meter.acceptedBytes == CW.BlockBytes(block.metered, size) <= cfg.maxCodeBytes)
    ensures var (o, block) := Build(cfg, evm, db, budget, req);
            var start := Prepare(cfg, evm, db, budget, req).value;
            block.metered
            == [req.systemOps] + SeenOf(start.exec, EnvOf(cfg, req), evm, block.body) + [req.finishOps]
    ensures var (o, block) := Build(cfg, evm, db, budget, req);
            var start := Prepare(cfg, evm, db, budget, req).value;
            var (x, e) := RunTxs(start.exec, EnvOf(cfg, req), evm, Plain(block.body));
            && e == None && x.db == block.exec.db && x.receipts == block.exec.receipts
            && x.gasUsed == block.exec.gasUsed
            && Survivors(start, EnvOf(cfg, req), evm, block.body) == block.body
  {
    var env := EnvOf(cfg, req);
    var start := Prepare(cfg, evm, db, budget, req).value;
    PreparedIsGood(cfg, evm, db, budget, req, size);
    FillIsGood(cfg, env, evm, start, req, size);
    var p := Fill(cfg, env, evm, start, req).value;
    SystemIsAccounted(p.draft.meter, p.draft.metered, req.finishOps, size);
    ExecutorGasIsTheHeaders(p.draft.exec, env, p.totals.gas);
  }

  lemma PreparedAlike(cfg: Config, evm: Evm, db: State, budget: nat, req: Request, readsLeft: nat)
    requires Prepare(cfg, evm, db, budget, req).Ok? && budget <= readsLeft
    ensures var (prepared, failed) := PreExecution(NewExec(db), EnvOf(cfg, req), evm, readsLeft);
            failed == None && Alike(Prepare(cfg, evm, db, budget, req).value.exec, prepared)
  {
    var x := NewExec(db).(hook := if req.trieTask then Some([]) else None);
    PreExecutionAlike(x, NewExec(db), EnvOf(cfg, req), evm, budget, readsLeft);
  }

  lemma ExecutesAlike(x: Exec, y: Exec, env: BlockEnv, evm: Evm, body: seq<Tx>)
    requires Alike(x, y)
    ensures var ((x', e), (y', f)) := (RunTxs(x, env, evm, Plain(body)), RunTxs(y, env, evm, Plain(body)));
            e == f && x'.db == y'.db && x'.receipts == y'.receipts && x'.gasUsed == y'.gasUsed
    ensures SeenOf(x, env, evm, body) == SeenOf(y, env, evm, body)
  {
    RunTxsAlike(x, y, env, evm, Plain(body));
    SeenOfAlike(x, y, env, evm, body);
  }

  /**
   A node that starts from the parent state, without a hook or a meter, and whose database answers at
   least as many reads, prepares and executes the payload to the same database, receipts and gas. The
   payload's code bytes are the union of the code that this node's execution touches.
   */
  lemma ImporterAgrees(cfg: Config, evm: Evm, db: State, budget: nat, req: Request, size: CW.Hash -> U64,
                       readsLeft: nat)
    requires Environment(evm, req, size) && Built(Build(cfg, evm, db, budget, req).0) && budget <= readsLeft
    ensures var (env, block) := (EnvOf(cfg, req), Build(cfg, evm, db, budget, req).1);
            var (prepared, failed) := PreExecution(NewExec(db), env, evm, readsLeft);
            var (x, error) := RunTxs(prepared, env, evm, Plain(block.body));
            && failed == None && error == None
            && x.db == block.exec.db && x.receipts == block.exec.receipts && x.gasUsed == block.exec.gasUsed
            && (cfg.maxCodeBytes < U64_MAX ==>
                  block.meter.acceptedBytes
                  == CW.BlockBytes([req.systemOps] + SeenOf(prepared, env, evm, block.body) + [req.finishOps], size))
  {
    var env, block := EnvOf(cfg, req), Build(cfg, evm, db, budget, req).1;
    var mine := Prepare(cfg, evm, db, budget, req).value.exec;
    PayloadIsSound(cfg, evm, db, budget, req, size);
    PreparedAlike(cfg, evm, db, budget, req, readsLeft);
    ExecutesAlike(mine, PreExecution(NewExec(db), env, evm, readsLeft).0, env, evm, block.body);
  }

  lemma FilledIsWellOrderedIff(cfg: Config, env: BlockEnv, evm: Evm, start: Draft, req: Request, k: nat)
    requires start.body == [] && Fill(cfg, env, evm, start, req).Ok?
    requires L1Order.L1Run(TxsOf(req.forced.value), k) && k <= TWO_64
    ensures L1Order.WellOrdered(Fill(cfg, env, evm, start, req).value.draft.body)
            <==> !SkipsInside(FirstPoint(start), cfg, env, evm, req.forced.value, k)
  {
    if req.noTxPool {
      BodyIsWellOrderedIff(FirstPoint(start), cfg, env, evm, req.forced.value, k, []);
    } else {
      BodyIsWellOrderedIff(FirstPoint(start), cfg, env, evm, req.forced.value, k, req.pool);
    }
  }

  /**
   A payload from a forced list that starts with an L1 run passes the consensus order rule exactly
   when no L1 message of the run was refused between two that were executed.
   */
  lemma PayloadIsWellOrderedIff(cfg: Config, evm: Evm, db: State, budget: nat, req: Request, k: nat)
    requires Built(Build(cfg, evm, db, budget, req).0)
    requires L1Order.L1Run(TxsOf(req.forced.value), k) && k <= TWO_64
    ensures var start := Prepare(cfg, evm, db, budget, req).value;
            L1Order.WellOrdered(Build(cfg, evm, db, budget, req).1.body)
            <==> !SkipsInside(FirstPoint(start), cfg, EnvOf(cfg, req), evm, req.forced.value, k)
  {
    var start := Prepare(cfg, evm, db, budget, req).value;
    FilledIsWellOrderedIff(cfg, EnvOf(cfg, req), evm, start, req, k);
    assert Build(cfg, evm, db, budget, req).1.body == Fill(cfg, EnvOf(cfg, req), evm, start, req).value.draft.body;
  }

  /** The end of the forced loop. */
  function Forced(cfg: Config, env: BlockEnv, evm: Evm, start: Draft, req: Request): Progress
    requires req.forced.Some?
  {
    RunForced(FirstPoint(start), cfg, env, evm, req.forced.value)
  }

  /** The end of both loops. */
  function Filled(cfg: Config, env: BlockEnv, evm: Evm, start: Draft, req: Request): Progress
    requires req.forced.Some?
  {
    var p := Forced(cfg, env, evm, start, req);
    if req.noTxPool then p else RunPool(p, cfg, env, evm, req.pool)
  }

  /** What the loops earn and add after the forced part, and from which candidates. */
  lemma FilledEarns(cfg: Config, env: BlockEnv, evm: Evm, start: Draft, req: Request)
    returns (entries: seq<Entry>, picked: seq<nat>)
    requires req.forced.Some?
    ensures Adds(Forced(cfg, env, evm, start, req), Filled(cfg, env, evm, start, req), entries)
    ensures PickedFrom(req.pool, picked, entries) && (req.noTxPool ==> entries == [])
    ensures Filled(cfg, env, evm, start, req).totals.fees == Earned(entries)
  {
    entries, picked := [], [];
    ForcedEarnsNothing(FirstPoint(start), cfg, env, evm, req.forced.value);
    if req.noTxPool {
      assert EntryTxs([]) == [] && EntryGas([]) == [];
    } else {
      entries, picked := PoolAccounting(Forced(cfg, env, evm, start, req), cfg, env, evm, req.pool);
    }
  }

  /** What goes on to be sealed is the end of both loops; an aborted build got there too. */
  lemma FillIsFilled(cfg: Config, env: BlockEnv, evm: Evm, start: Draft, req: Request)
    ensures match Fill(cfg, env, evm, start, req)
            case Ok(q) => && req.forced.Some? && q == Filled(cfg, env, evm, start, req)
                          && (!req.noTxPool && req.bestFees.Some? ==> req.bestFees.value < q.totals.fees)
            case Err(Aborted(fees)) => && req.forced.Some? && fees == Filled(cfg, env, evm, start, req).totals.fees
                                       && !req.noTxPool && req.bestFees.Some? && fees <= req.bestFees.value
            case Err(o) => !Built(o)
  {
  }

  /** Sealing changes neither the transactions nor the totals. */
  lemma SealKeeps(cfg: Config, p: Progress, req: Request)
    ensures var (o, block) := Seal(cfg, p, req);
            && !o.Aborted?
            && (Built(o) ==> && block.body == p.draft.body && block.exec.spent == p.draft.exec.spent
                             && o.totals == p.totals && (o.Freeze? <==> req.noTxPool))
  {
  }

  /** A payload is the end of both loops; an aborted build got there too. */
  lemma OutcomeOfFilled(cfg: Config, env: BlockEnv, evm: Evm, start: Draft, req: Request)
    ensures var (o, block) := Complete(cfg, env, evm, start, req);
            Built(o) || o.Aborted? ==>
              && req.forced.Some?
              && var q := Filled(cfg, env, evm, start, req);
                 && (Built(o) ==> && block.body == q.draft.body && block.exec.spent == q.draft.exec.spent
                                  && o.totals == q.totals && (o.Freeze? <==> req.noTxPool)
                                  && (o.Better? && req.bestFees.Some? ==> req.bestFees.value < o.totals.fees))
                 && (o.Aborted? ==> && o.fees == q.totals.fees && !req.noTxPool
                                    && req.bestFees.Some? && o.fees <= req.bestFees.value)
  {
    var f := Fill(cfg, env, evm, start, req);
    FillIsFilled(cfg, env, evm, start, req);
    if f.Ok? { SealKeeps(cfg, f.value, req); }
  }

  /**
   A payload is frozen exactly when the pool was not used. Otherwise it is returned only when it earns
   strictly more than the best so far, and what it earns is tip times gas over the pool transactions
   that follow the forced part of its list, each a candidate of the pool with that candidate's tip and
   the gas the executor charged for it. An aborted build earned, in the same sense, no more than the best.
   */
  lemma OutcomeFollowsFees(cfg: Config, evm: Evm, db: State, budget: nat, req: Request)
    returns (entries: seq<Entry>, picked: seq<nat>)
    ensures var (o, block) := Build(cfg, evm, db, budget, req);
            Built(o) || o.Aborted? ==>
              && Prepare(cfg, evm, db, budget, req).Ok? && req.forced.Some? && PickedFrom(req.pool, picked, entries)
              && var start := Prepare(cfg, evm, db, budget, req).value;
                 var p := Forced(cfg, EnvOf(cfg, req), evm, start, req);
                 && (Built(o) ==> && block.body == p.draft.body + EntryTxs(entries)
                                  && block.exec.spent == p.draft.exec.spent + EntryGas(entries)
                                  && o.totals.fees == Earned(entries) && (o.Freeze? <==> req.noTxPool))
                 && (o.Freeze? ==> entries == [])
                 && (o.Better? && req.bestFees.Some? ==> req.bestFees.value < o.totals.fees)
                 && (o.Aborted? ==> && Adds(p, Filled(cfg, EnvOf(cfg, req), evm, start, req), entries)
                                    && !req.noTxPool && o.fees == Earned(entries)
                                    && req.bestFees.Some? && o.fees <= req.bestFees.value)
  {
    var prepared := Prepare(cfg, evm, db, budget, req);
    entries, picked := [], [];
    if prepared.Ok? {
      OutcomeOfFilled(cfg, EnvOf(cfg, req), evm, prepared.value, req);
      if req.forced.Some? { entries, picked := FilledEarns(cfg, EnvOf(cfg, req), evm, prepared.value, req); }
    }
  }

  /** The header's gas limit passes the consensus check unless an override or the minimum forbids it. */
  lemma PayloadGasLimitVerdict(cfg: Config, req: Request)
    requires req.gasLimit.None? && GasLimit.MINIMUM_GAS_LIMIT <= req.parentGasLimit
    requires cfg.gasLimit.Some? ==> GasLimit.MINIMUM_GAS_LIMIT <= cfg.gasLimit.value
    ensures GasLimit.Validate(EnvOf(cfg, req).gasLimit, req.parentGasLimit) == GasLimit.Accepted
  {
    GasLimit.NextGasLimitVerdict(req.gasLimit, cfg.gasLimit, req.parentGasLimit);
    if cfg.gasLimit.Some? { GasLimit.StepCloses(req.parentGasLimit, cfg.gasLimit.value); }
  }

  /**
   A payload built on an accepted parent, with the predicted base fee, is an accepted parent itself:
   its base fee is under the protocol cap, its gas within its limit, its limit at the minimum or above.
   */
  lemma PayloadIsAnAcceptedParent(cfg: Config, evm: Evm, db: State, budget: nat, req: Request, size: CW.Hash -> U64,
                                  spec: BaseFee.ChainSpec, parent: BaseFee.Parent, overhead: U64, timestamp: U64)
    requires Environment(evm, req, size) && Built(Build(cfg, evm, db, budget, req).0)
    requires parent.Accepted() && req.parentGasLimit == parent.gasLimit && req.gasLimit.None?
    requires cfg.gasLimit.Some? ==> GasLimit.MINIMUM_GAS_LIMIT <= cfg.gasLimit.value
    ensures BaseFee.Parent(BaseFee.NextBaseFee(spec, parent, overhead, timestamp),
                           Build(cfg, evm, db, budget, req).1.exec.gasUsed, EnvOf(cfg, req).gasLimit).Accepted()
  {
    PayloadIsSound(cfg, evm, db, budget, req, size);
    PayloadGasLimitVerdict(cfg, req);
    BaseFee.NextBaseFeeBounds(spec, parent, overhead, timestamp);
  }

  // ----- When the executor refuses for gas ---------------------------------------------------------------------------

  predicate GasRefusal(o: Outcome) {
    o.NotBuilt? && o.error.EvmError? && o.error.cause.GasLimitMoreThanAvailable?
  }

  /** Some candidate is reached whose gas limit and the gas used before it sum to 2^64 or more. */
  ghost predicate SomeOverflows(cfg: Config, env: BlockEnv, evm: Evm, start: Draft, req: Request) {
    && req.forced.Some? && (cfg.maxDa.Some? ==> ForcedDaBytes(req.forced.value) <= cfg.maxDa.value)
    && var p := RunForced(FirstPoint(start), cfg, env, evm, req.forced.value);
       || SomeForcedOverflows(FirstPoint(start), cfg, env, evm, req.forced.value)
       || (p.stop.None? && !req.noTxPool && SomePoolOverflows(p, cfg, env, evm, req.pool))
  }

  lemma FillRefusesForGasIff(cfg: Config, env: BlockEnv, evm: Evm, start: Draft, req: Request, size: CW.Hash -> U64)
    requires Sound(evm) && ConsistentCode(evm, size) && Good(FirstPoint(start), start, env, evm, size)
    ensures var f := Fill(cfg, env, evm, start, req);
            (f.Err? && GasRefusal(f.error)) <==> env.gasLimit == U64_MAX && SomeOverflows(cfg, env, evm, start, req)
  {
    if req.forced.Some? {
      var p := RunForced(FirstPoint(start), cfg, env, evm, req.forced.value);
      ForcedGasFailureIff(FirstPoint(start), start, cfg, env, evm, req.forced.value, size);
      ForcedIsGood(FirstPoint(start), start, cfg, env, evm, req.forced.value, size);
      if p.stop.None? { PoolGasFailureIff(p, start, cfg, env, evm, req.pool, size); }
    }
  }

  /**
   A build fails because the executor finds too little gas left exactly when the block gas limit is
   2^64 - 1 and a candidate is reached whose gas limit and the gas used before it sum to 2^64 or more.
   */
  lemma ExecutorRefusesForGasIff(cfg: Config, evm: Evm, db: State, budget: nat, req: Request, size: CW.Hash -> U64)
    requires Environment(evm, req, size)
    ensures GasRefusal(Build(cfg, evm, db, budget, req).0)
            <==> && EnvOf(cfg, req).gasLimit == U64_MAX && Prepare(cfg, evm, db, budget, req).Ok?
                 && SomeOverflows(cfg, EnvOf(cfg, req), evm, Prepare(cfg, evm, db, budget, req).value, req)
  {
    var prepared := Prepare(cfg, evm, db, budget, req);
    if prepared.Ok? {
      PreparedIsGood(cfg, evm, db, budget, req, size);
      FillRefusesForGasIff(cfg, EnvOf(cfg, req), evm, prepared.value, req, size);
    }
  }

  // ----- The state hook of a build -----------------------------------------------------------------------------------

  lemma LoopsFollow(cfg: Config, env: BlockEnv, evm: Evm, start: Draft, req: Request, x: Exec)
    requires Follows(x, start.exec) && Fill(cfg, env, evm, start, req).Ok?
    ensures Follows(x, Fill(cfg, env, evm, start, req).value.draft.exec)
  {
    var p := RunForced(FirstPoint(start), cfg, env, evm, req.forced.value);
    ForcedFollows(x, FirstPoint(start), cfg, env, evm, req.forced.value);
    PoolFollows(x, p, cfg, env, evm, req.pool);
  }

  /**
   With a state-root task waiting, the hook's log when it is dropped at sealing is the record of
   everything the build committed, and folds the parent state to the block's database.
   */
  lemma SealedHookFoldsToBlock(cfg: Config, evm: Evm, db: State, budget: nat, req: Request)
    requires Built(Build(cfg, evm, db, budget, req).0) && req.trieTask
    ensures var start := Prepare(cfg, evm, db, budget, req).value;
            var log := Fill(cfg, EnvOf(cfg, req), evm, start, req).value.draft.exec.hook;
            var block := Build(cfg, evm, db, budget, req).1;
            && log.Some? && block.exec.commits == log.value && block.exec.db == CommitAll(db, log.value)
            && block.exec.hook.None?
  {
    var x := NewExec(db).(hook := Some([]));
    var start := Prepare(cfg, evm, db, budget, req).value;
    assert Committed(x, x, []);
    FollowsPreExecution(x, x, EnvOf(cfg, req), evm, budget);
    LoopsFollow(cfg, EnvOf(cfg, req), evm, start, req, x);
    FollowsFolds(x, Fill(cfg, EnvOf(cfg, req), evm, start, req).value.draft.exec);
  }

  // ----- The builder -------------------------------------------------------------------------------------------------

  /** `accept_system_code_budget`, after the inspector saw `ops`. */
  method AcceptSystemCode(meter: CW.CodeWitnessHandle, ops: seq<CW.Op>) returns (ok: bool)
    modifies meter
    ensures ok <==> MeterSystem(old(meter.View()), ops).Some?
    ensures ok ==> meter.View() == MeterSystem(old(meter.View()), ops).value
  {
    meter.BeginTransaction();
    Inspect(meter, ops);
    ok := meter.AcceptTransaction();
  }

  method TryForced(builder: BlockBuilder, cfg: Config, f: ForcedTx, given: Totals, givenGas: seq<U64>)
    returns (totals: Totals, forcedGas: seq<U64>, stop: Option<Stop>)
    modifies builder, builder.executor, builder.executor.db, builder.meter
    ensures Progress(builder.View(), totals, forcedGas, [], stop)
            == ForcedStep(Progress(old(builder.View()), given, givenGas, [], None), cfg,
                          builder.executor.env, builder.executor.evm, f)
  {
    totals, forcedGas := given, givenGas;
    if f.tx.Blob? { return totals, forcedGas, Some(Fail(BlobRejected)); }
    if !f.recoverable { return totals, forcedGas, Some(Fail(EcRecoverFailed)); }
    if SatAdd(totals.gas, f.tx.gasLimit) > builder.executor.env.gasLimit {
      forcedGas := forcedGas + [f.tx.gasLimit];
      return totals, forcedGas, Some(Fail(ForcedGasLimit(forcedGas, builder.executor.env.gasLimit)));
    }
    var r := builder.ExecuteWithCodeBudget(f.tx);
    match r
    case Ok(Some(used)) => return Record(totals, f.tx, used, 0), forcedGas + [used], None;
    case Ok(None) => return totals, forcedGas, Some(Fail(ForcedCodeLimit(cfg.maxCodeBytes)));
    case Err(InvalidTx(_)) => return totals, forcedGas, None;
    case Err(e) => return totals, forcedGas, Some(Fail(EvmError(e)));
  }

  method RunForcedList(builder: BlockBuilder, cfg: Config, forced: seq<ForcedTx>)
    returns (totals: Totals, forcedGas: seq<U64>, stop: Option<Stop>)
    modifies builder, builder.executor, builder.executor.db, builder.meter
    ensures Progress(builder.View(), totals, forcedGas, [], stop)
            == RunForced(FirstPoint(old(builder.View())), cfg, builder.executor.env, builder.executor.evm, forced)
  {
    ghost var start := FirstPoint(builder.View());
    totals, forcedGas, stop := Totals(0, 0, 0), [], None;
    for i := 0 to |forced|
      invariant stop.None?
      invariant Progress(builder.View(), totals, forcedGas, [], stop)
                == RunForced(start, cfg, builder.executor.env, builder.executor.evm, forced[..i])
    {
      assert forced[..i + 1][..i] == forced[..i];
      totals, forcedGas, stop := TryForced(builder, cfg, forced[i], totals, forcedGas);
      if stop.Some? {
        StoppedForced(start, cfg, builder.executor.env, builder.executor.evm, forced, i + 1);
        return;
      }
    }
    assert forced[..|forced|] == forced;
  }

  method TryCandidate(builder: BlockBuilder, cfg: Config, c: Candidate, given: Totals, ghost forcedGas: seq<U64>,
                      givenMarks: seq<Tx>)
    returns (totals: Totals, marked: seq<Tx>, stop: Option<Stop>)
    modifies builder, builder.executor, builder.executor.db, builder.meter
    ensures Progress(builder.View(), totals, forcedGas, marked, stop)
            == PoolStep(Progress(old(builder.View()), given, forcedGas, givenMarks, None), cfg,
                        builder.executor.env, builder.executor.evm, c)
  {
    totals, marked := given, givenMarks;
    if OverLimits(totals, c.tx, builder.executor.env.gasLimit, cfg.maxDa) || c.tx.Blob? || c.tx.L1Message? {
      return totals, marked + [c.tx], None;
    }
    if c.cancelled { return totals, marked, Some(Cancel); }
    if ShouldBreak(cfg, totals, c.timeUp) { return totals, marked, Some(Break); }
    var r := builder.ExecuteWithCodeBudget(c.tx);
    match r
    case Ok(Some(used)) => return Record(totals, c.tx, used, c.tip * used), marked, None;
    case Ok(None) => return totals, marked + [c.tx], None;
    case Err(InvalidTx(low)) => return totals, marked + (if low then [] else [c.tx]), None;
    case Err(e) => return totals, marked, Some(Fail(EvmError(e)));
  }

  method RunPoolList(builder: BlockBuilder, cfg: Config, pool: seq<Candidate>, given: Totals, ghost forcedGas: seq<U64>)
    returns (totals: Totals, marked: seq<Tx>, stop: Option<Stop>)
    modifies builder, builder.executor, builder.executor.db, builder.meter
    ensures Progress(builder.View(), totals, forcedGas, marked, stop)
            == RunPool(Progress(old(builder.View()), given, forcedGas, [], None), cfg,
                       builder.executor.env, builder.executor.evm, pool)
  {
    ghost var start := Progress(builder.View(), given, forcedGas, [], None);
    totals, marked, stop := given, [], None;
    for i := 0 to |pool|
      invariant stop.None?
      invariant Progress(builder.View(), totals, forcedGas, marked, stop)
                == RunPool(start, cfg, builder.executor.env, builder.executor.evm, pool[..i])
    {
      assert pool[..i + 1][..i] == pool[..i];
      totals, marked, stop := TryCandidate(builder, cfg, pool[i], totals, forcedGas, marked);
      if stop.Some? {
        StoppedPool(start, cfg, builder.executor.env, builder.executor.evm, pool, i + 1);
        return;
      }
    }
    assert pool[..|pool|] == pool;
  }

  /** The loops on a prepared builder; `r.None?` means that the block goes on to be sealed. */
  method FillBlock(builder: BlockBuilder, cfg: Config, req: Request) returns (r: Option<Outcome>, totals: Totals)
    modifies builder, builder.executor, builder.executor.db, builder.meter
    ensures var filled := Fill(cfg, builder.executor.env, builder.executor.evm, old(builder.View()), req);
            match r
            case Some(o) => filled == Err(o)
            case None => filled.Ok? && filled.value.draft == builder.View() && filled.value.totals == totals
  {
    totals := Totals(0, 0, 0);
    if req.forced.None? { return Some(NotBuilt(ForcedDecodeFailed)), totals; }
    var bytes := ForcedDaBytes(req.forced.value);
    if cfg.maxDa.Some? && bytes > cfg.maxDa.value {
      return Some(NotBuilt(ForcedDaLimit(bytes, cfg.maxDa.value))), totals;
    }
    var forcedGas, stop;
    totals, forcedGas, stop := RunForcedList(builder, cfg, req.forced.value);
    if stop.Some? {
      return Some(if stop.value.Fail? then NotBuilt(stop.value.error) else Cancelled), totals;
    }
    if !req.noTxPool {
      var marked;
      totals, marked, stop := RunPoolList(builder, cfg, req.pool, totals, forcedGas);
      if stop.Some? && stop.value.Fail? { return Some(NotBuilt(stop.value.error)), totals; }
      if stop == Some(Cancel) { return Some(Cancelled), totals; }
      if req.bestFees.Some? && totals.fees <= req.bestFees.value { return Some(Aborted(totals.fees)), totals; }
    }
    return None, totals;
  }

  /** From the parent state to the first candidate. */
  method PrepareBlock(db: Database, cfg: Config, evm: Evm, systemConfig: Address, overheadSlot: Word, req: Request)
    returns (builder: BlockBuilder, error: Option<BuildError>)
    requires db.commits == []
    modifies db
    ensures fresh(builder) && fresh(builder.executor) && fresh(builder.meter)
    ensures builder.executor.db == db && builder.executor.env == EnvOf(cfg, req) && builder.executor.evm == evm
    ensures Prepare(cfg, evm, old(db.state), old(db.readsLeft), req)
            == if error.Some? then Err(error.value) else Ok(builder.View())
  {
    var meter := new CW.CodeWitnessHandle(cfg.maxCodeBytes, U64_MAX);
    var executor := new Executor(db, EnvOf(cfg, req), evm);
    builder := new BlockBuilder(executor, meter);
    if req.trieTask { executor.SetStateHook(true); }
    var e := executor.ApplyPreExecutionChanges(systemConfig, overheadSlot);
    if e.Some? { return builder, Some(PreExecutionFailed(e.value)); }
    var ok := AcceptSystemCode(meter, req.systemOps);
    if !ok { return builder, Some(SystemCodeLimit(cfg.maxCodeBytes)); }
    builder.metered := [req.systemOps];
    return builder, None;
  }

  /** Drops the hook, seals the block and accounts for the code of its system calls. */
  method SealBlock(builder: BlockBuilder, cfg: Config, ghost p: Progress, totals: Totals, req: Request)
    returns (o: Outcome)
    requires p.draft == builder.View() && p.totals == totals
    modifies builder, builder.executor, builder.meter
    ensures o == Seal(cfg, p, req).0 && (Built(o) ==> builder.View() == Seal(cfg, p, req).1)
  {
    if req.trieTask { builder.executor.SetStateHook(false); }
    if !req.finishes { return NotBuilt(FinishFailed); }
    var ok := AcceptSystemCode(builder.meter, req.finishOps);
    if !ok { return NotBuilt(SystemCodeLimit(cfg.maxCodeBytes)); }
    builder.metered := builder.metered + [req.finishOps];
    o := if req.noTxPool then Freeze(totals) else Better(totals);
  }

  method CompleteBlock(builder: BlockBuilder, cfg: Config, req: Request) returns (o: Outcome)
    modifies builder, builder.executor, builder.executor.db, builder.meter
    ensures var (outcome, block) := Complete(cfg, builder.executor.env, builder.executor.evm, old(builder.View()), req);
            o == outcome && (Built(o) ==> builder.View() == block)
  {
    ghost var filled := Fill(cfg, builder.executor.env, builder.executor.evm, builder.View(), req);
    var r, totals := FillBlock(builder, cfg, req);
    if r.Some? {
      NotBuiltByFill(cfg, builder.executor.env, builder.executor.evm, old(builder.View()), req);
      return r.value;
    }
    o := SealBlock(builder, cfg, filled.value, totals, req);
  }

  lemma NotBuiltByFill(cfg: Config, env: BlockEnv, evm: Evm, start: Draft, req: Request)
    ensures Fill(cfg, env, evm, start, req).Err? ==> !Built(Fill(cfg, env, evm, start, req).error)
  {
  }

  /** `build_payload`. */
  method BuildPayload(db: Database, cfg: Config, evm: Evm, systemConfig: Address, overheadSlot: Word, req: Request)
    returns (o: Outcome, builder: BlockBuilder)
    requires db.commits == []
    modifies db
    ensures var (outcome, block) := Build(cfg, evm, old(db.state), old(db.readsLeft), req);
            o == outcome && (Built(o) ==> builder.View() == block)
  {
    var error;
    builder, error := PrepareBlock(db, cfg, evm, systemConfig, overheadSlot, req);
    if error.Some? { return NotBuilt(error.value), builder; }
    o := CompleteBlock(builder, cfg, req);
  }
}
