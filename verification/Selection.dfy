/**
 Which candidates a payload takes, and how a build ends: the answer to every candidate from the
 interpreter's answer, the gas left, and the exact code bytes and steps; then the two loops and the
 whole build from those answers.
 */
module Selection {
  import opened MachineInts
  import opened WorldState
  import opened Transaction
  import opened BlockExecutor
  import opened DraftBlock
  import opened PayloadBuilder
  import opened Payload
  import opened Ledger
  import CW = CodeWitness

  // ----- One candidate ---------------------------------------------------------------------------------------

  /** With `ops` on top, the block's code is within its budget and the candidate within its steps. */
  ghost predicate Fits(d: Draft, ops: seq<CW.Op>, size: CW.Hash -> U64) {
    && (d.meter.maxCodeBytes < U64_MAX ==> CW.BlockBytes(d.metered + [ops], size) <= d.meter.maxCodeBytes)
    && CW.Ticks(ops) <= d.meter.maxSteps
  }

  /** The answer to a candidate: kept exactly when the interpreter executes it and its code and steps fit. */
  ghost function Ruling(d: Draft, env: BlockEnv, evm: Evm, tx: Tx, size: CW.Hash -> U64): TryResult
    requires d.exec.gasUsed <= env.gasLimit
  {
    match Refusal(evm, d.exec.db, d.exec.gasUsed, env.gasLimit, tx, None)
    case None =>
      var out := Answer(evm, d.exec.db, tx, None);
      if Fits(d, out.ops, size) then Ok(Some(out.gasUsed)) else Ok(None)
    case Some(EvmFailure(seen)) => if Fits(d, seen, size) then Err(EvmFailure(seen)) else Ok(None)
    case Some(e) => Err(e)
  }

  lemma MeterRules(d: Draft, env: BlockEnv, ops: seq<CW.Op>, size: CW.Hash -> U64)
    requires Sane(d, env, size) && CW.Consistent(ops, size)
    ensures CW.RunOps(d.meter.Reset(), ops).exceeded.None? <==> Fits(d, ops, size)
  {
    CW.OpsAreMetered(d.meter, ops, size);
    if d.meter.maxCodeBytes < U64_MAX { CW.TryIsAccounted(d.meter, d.metered, ops, size); }
  }

  lemma NothingFits(d: Draft, env: BlockEnv, size: CW.Hash -> U64)
    requires Sane(d, env, size)
    ensures CW.RunOps(d.meter.Reset(), []).exceeded.None?
  {
  }

  /**
   A candidate is answered by its ruling. A kept one is committed as the interpreter returned it: its
   update, gas and fee to the executor, itself to the list, its code to the meter.
   */
  lemma TryFollowsRuling(d: Draft, env: BlockEnv, evm: Evm, tx: Tx, size: CW.Hash -> U64)
    requires Sound(evm) && ConsistentCode(evm, size) && Sane(d, env, size)
    ensures var (e, r) := Try(d, env, evm, tx);
            && r == Ruling(d, env, evm, tx, size)
            && (Kept(r) ==> var out := Answer(evm, d.exec.db, tx, None);
                            && e.exec.db == Commit(d.exec.db, out.update) && e.body == d.body + [tx]
                            && e.metered == d.metered + [out.ops] && e.exec.spent == d.exec.spent + [out.gasUsed]
                            && e.exec.gasUsed == d.exec.gasUsed + out.gasUsed && r.value.value == out.gasUsed
                            && e.exec.receipts == d.exec.receipts
                                 + [Receipt(tx.L1Message?, e.exec.gasUsed, if tx.L1Message? then 0 else out.l1Fee)])
            && (!Kept(r) ==> Visible(e) == Visible(d))
  {
    var seen := SeenBy(Execute(d.exec, env, evm, tx, None).1);
    RunTxBooks(d.exec, env, evm, tx, None);
    NothingFits(d, env, size);
    if CW.Consistent(seen, size) { MeterRules(d, env, seen, size); }
    if !Kept(Try(d, env, evm, tx).1) { RejectionLeavesNoTrace(d, env, evm, tx); }
  }

  // ----- What becomes of a candidate in a loop --------------------------------------------------------------

  datatype Fate = Taken(used: U64) | Marked | Passed | Halts(stop: Stop)

  /** What a loop does to a candidate shows here. */
  datatype View = View(stop: Option<Stop>, body: seq<Tx>, marked: seq<Tx>)

  function ViewOf(p: Progress): View { View(p.stop, p.draft.body, p.marked) }

  predicate Meets(v: View, w: View, tx: Tx, fate: Fate) {
    && w == View(if fate.Halts? then Some(fate.stop) else v.stop, v.body + (if fate.Taken? then [tx] else []),
                 v.marked + (if fate.Marked? then [tx] else []))
    && (v.stop.Some? ==> fate.Passed?)
  }

  // ----- The forced loop -----------------------------------------------------------------------------------------

  /** Why a forced transaction fails the build, if it does. */
  ghost function Fault(p: Progress, cfg: Config, env: BlockEnv, evm: Evm, f: ForcedTx, size: CW.Hash -> U64)
    : Option<BuildError>
    requires p.draft.exec.gasUsed <= env.gasLimit
  {
    if f.tx.Blob? then Some(BlobRejected)
    else if !f.recoverable then Some(EcRecoverFailed)
    else if env.gasLimit < U64_MAX && p.totals.gas + f.tx.gasLimit > env.gasLimit then
      Some(ForcedGasLimit(p.forcedGas + [f.tx.gasLimit], env.gasLimit))
    else
      match Ruling(p.draft, env, evm, f.tx, size)
      case Ok(None) => Some(ForcedCodeLimit(cfg.maxCodeBytes))
      case Ok(Some(_)) => None
      case Err(InvalidTx(_)) => None
      case Err(e) => Some(EvmError(e))
  }

  ghost function ForcedFateOf(p: Progress, cfg: Config, env: BlockEnv, evm: Evm, f: ForcedTx, size: CW.Hash -> U64)
    : Fate
    requires p.draft.exec.gasUsed <= env.gasLimit
  {
    match Fault(p, cfg, env, evm, f, size)
    case Some(error) => Halts(Fail(error))
    case None =>
      match Ruling(p.draft, env, evm, f.tx, size)
      case Ok(Some(used)) => Taken(used)
      case _ => Passed
  }

  /** A forced transaction without fault is added when its ruling keeps it, and dropped otherwise. */
  lemma ForcedStepMeetsFate(p: Progress, cfg: Config, env: BlockEnv, evm: Evm, f: ForcedTx, size: CW.Hash -> U64)
    requires Sound(evm) && ConsistentCode(evm, size) && Sane(p.draft, env, size) && TotalsAgree(p) && p.stop.None?
    ensures var q := ForcedStep(p, cfg, env, evm, f);
            var fate := ForcedFateOf(p, cfg, env, evm, f, size);
            && Meets(ViewOf(p), ViewOf(q), f.tx, fate)
            && (fate.Taken? ==> && q.totals.gas == p.totals.gas + fate.used && q.totals.fees == p.totals.fees
                                && q.forcedGas == p.forcedGas + [fate.used])
            && (fate.Passed? ==> && Visible(q.draft) == Visible(p.draft) && q.totals == p.totals
                                 && q.forcedGas == p.forcedGas)
  {
    TryFollowsRuling(p.draft, env, evm, f.tx, size);
    SameBody(p.draft, env, evm, f.tx);
  }

  lemma SameBody(d: Draft, env: BlockEnv, evm: Evm, tx: Tx)
    ensures !Kept(Try(d, env, evm, tx).1) ==> Try(d, env, evm, tx).0.body == d.body
  {
  }

  // ----- The pool loop -----------------------------------------------------------------------------------------------

  /** Too large for the gas or the bytes that are left, or of a kind the pool must not add. */
  predicate Unfit(t: Totals, tx: Tx, gasLimit: U64, maxDa: Option<U64>) {
    || (gasLimit < U64_MAX && t.gas + tx.gasLimit > gasLimit)
    || (maxDa.Some? && maxDa.value < U64_MAX && t.da + tx.encodedLength > maxDa.value)
    || tx.Blob? || tx.L1Message?
  }

  /** Out of time, or with less than a smallest transaction's gas or bytes below a configured limit. */
  predicate NearlyFull(t: Totals, cfg: Config, timeUp: bool) {
    || timeUp
    || (cfg.gasLimit.Some? && 0 < t.gas && cfg.gasLimit.value < t.gas + 21_000)
    || (cfg.maxDa.Some? && 0 < t.da && cfg.maxDa.value < t.da + 115)
  }

  /** What becomes of a pool candidate that the loop looks at. */
  ghost function FateOf(p: Progress, cfg: Config, env: BlockEnv, evm: Evm, c: Candidate, size: CW.Hash -> U64): Fate
    requires p.draft.exec.gasUsed <= env.gasLimit
  {
    if Unfit(p.totals, c.tx, env.gasLimit, cfg.maxDa) then Marked
    else if c.cancelled then Halts(Cancel)
    else if NearlyFull(p.totals, cfg, c.timeUp) then Halts(Break)
    else
      match Ruling(p.draft, env, evm, c.tx, size)
      case Ok(Some(used)) => Taken(used)
      case Ok(None) => Marked
      case Err(InvalidTx(low)) => if low then Passed else Marked
      case Err(e) => Halts(Fail(EvmError(e)))
  }

  /** A candidate meets its fate: taken whole, marked invalid, passed over, or the end of the loop. */
  lemma PoolStepMeetsFate(p: Progress, cfg: Config, env: BlockEnv, evm: Evm, c: Candidate, size: CW.Hash -> U64)
    requires Sound(evm) && ConsistentCode(evm, size) && Sane(p.draft, env, size) && TotalsAgree(p) && p.stop.None?
    ensures var q := PoolStep(p, cfg, env, evm, c);
            var fate := FateOf(p, cfg, env, evm, c, size);
            && Meets(ViewOf(p), ViewOf(q), c.tx, fate)
            && (fate.Taken? ==> && q.totals.gas == p.totals.gas + fate.used
                                && q.totals.fees == p.totals.fees + c.tip * fate.used)
            && (!fate.Taken? ==> Visible(q.draft) == Visible(p.draft) && q.totals == p.totals)
  {
    TryFollowsRuling(p.draft, env, evm, c.tx, size);
    SameBody(p.draft, env, evm, c.tx);
  }

  // ----- Whole loops -------------------------------------------------------------------------------------------------

  /** Between `views[i]` and `views[i + 1]` the i-th candidate meets its fate; none does after a stop. */
  predicate AllMeet(views: seq<View>, txs: seq<Tx>, fates: seq<Fate>) {
    && |views| == |txs| + 1 == |fates| + 1
    && forall i {:trigger fates[i]} :: 0 <= i < |txs| ==> Meets(views[i], views[i + 1], txs[i], fates[i])
  }

  /** Those that were taken, or those that were marked, in order. */
  function Those(txs: seq<Tx>, fates: seq<Fate>, taken: bool): seq<Tx>
    requires |txs| == |fates|
  {
    if txs == [] then []
    else
      var n := |txs| - 1;
      Those(txs[..n], fates[..n], taken)
      + if (if taken then fates[n].Taken? else fates[n].Marked?) then [txs[n]] else []
  }

  lemma {:induction false} ViewsSelect(views: seq<View>, txs: seq<Tx>, fates: seq<Fate>, n: nat)
    requires AllMeet(views, txs, fates) && n <= |txs|
    ensures views[n].body == views[0].body + Those(txs[..n], fates[..n], true)
    ensures views[n].marked == views[0].marked + Those(txs[..n], fates[..n], false)
  {
    if n > 0 {
      ViewsSelect(views, txs, fates, n - 1);
      assert txs[..n][..n - 1] == txs[..n - 1] && fates[..n][..n - 1] == fates[..n - 1];
      assert Meets(views[n - 1], views[n], txs[n - 1], fates[n - 1]);
    }
  }

  /** The loop stops at the first candidate that halts it, and only there. */
  predicate StopsAt(fates: seq<Fate>, stop: Option<Stop>, n: nat) {
    && n <= |fates| && (forall i :: 0 <= i < n ==> !fates[i].Halts?)
    && stop == (if n < |fates| && fates[n].Halts? then Some(fates[n].stop) else None)
    && (n < |fates| ==> fates[n].Halts?)
  }

  lemma {:induction false} ViewsStop(views: seq<View>, txs: seq<Tx>, fates: seq<Fate>, m: nat) returns (n: nat)
    requires AllMeet(views, txs, fates) && views[0].stop.None? && m <= |txs|
    ensures StopsAt(fates[..m], views[m].stop, n)
  {
    if m == 0 {
      n := 0;
    } else {
      n := ViewsStop(views, txs, fates, m - 1);
      assert Meets(views[m - 1], views[m], txs[m - 1], fates[m - 1]);
      if n == m - 1 && !fates[m - 1].Halts? { n := m; }
    }
  }

  /** The fate of the i-th forced transaction; `Passed` where the loop has stopped before it. */
  ghost function ForcedFateAt(p: Progress, cfg: Config, env: BlockEnv, evm: Evm, forced: seq<ForcedTx>, i: nat,
                              size: CW.Hash -> U64): Fate
    requires i < |forced|
  {
    var q := RunForced(p, cfg, env, evm, forced[..i]);
    if q.stop.Some? || q.draft.exec.gasUsed > env.gasLimit then Passed
    else ForcedFateOf(q, cfg, env, evm, forced[i], size)
  }

  ghost function PoolFateAt(p: Progress, cfg: Config, env: BlockEnv, evm: Evm, pool: seq<Candidate>, i: nat,
                            size: CW.Hash -> U64): Fate
    requires i < |pool|
  {
    var q := RunPool(p, cfg, env, evm, pool[..i]);
    if q.stop.Some? || q.draft.exec.gasUsed > env.gasLimit then Passed
    else FateOf(q, cfg, env, evm, pool[i], size)
  }

  lemma ForcedMeets(p: Progress, start: Draft, cfg: Config, env: BlockEnv, evm: Evm, forced: seq<ForcedTx>, i: nat,
                    size: CW.Hash -> U64)
    requires Sound(evm) && ConsistentCode(evm, size) && Good(p, start, env, evm, size) && i < |forced|
    ensures Meets(ViewOf(RunForced(p, cfg, env, evm, forced[..i])),
                  ViewOf(RunForced(p, cfg, env, evm, forced[..i + 1])), forced[i].tx,
                  ForcedFateAt(p, cfg, env, evm, forced, i, size))
  {
    var q := RunForced(p, cfg, env, evm, forced[..i]);
    assert forced[..i + 1][..i] == forced[..i];
    ForcedIsGood(p, start, cfg, env, evm, forced[..i], size);
    if q.stop.None? { ForcedStepMeetsFate(q, cfg, env, evm, forced[i], size); }
  }

  lemma PoolMeets(p: Progress, start: Draft, cfg: Config, env: BlockEnv, evm: Evm, pool: seq<Candidate>, i: nat,
                  size: CW.Hash -> U64)
    requires Sound(evm) && ConsistentCode(evm, size) && Good(p, start, env, evm, size) && i < |pool|
    ensures Meets(ViewOf(RunPool(p, cfg, env, evm, pool[..i])), ViewOf(RunPool(p, cfg, env, evm, pool[..i + 1])),
                  pool[i].tx, PoolFateAt(p, cfg, env, evm, pool, i, size))
  {
    var q := RunPool(p, cfg, env, evm, pool[..i]);
    assert pool[..i + 1][..i] == pool[..i];
    PoolIsGood(p, start, cfg, env, evm, pool[..i], size);
    if q.stop.None? { PoolStepMeetsFate(q, cfg, env, evm, pool[i], size); }
  }

  /** `p` went to `q` over candidates with these fates, of which the n-th halted the loop if any did. */
  predicate Selects(p: Progress, q: Progress, txs: seq<Tx>, fates: seq<Fate>, n: nat) {
    && |fates| == |txs|
    && q.draft.body == p.draft.body + Those(txs, fates, true) && q.marked == p.marked + Those(txs, fates, false)
    && StopsAt(fates, q.stop, n)
  }

  lemma ViewsGiveSelection(p: Progress, q: Progress, views: seq<View>, txs: seq<Tx>, fates: seq<Fate>) returns (n: nat)
    requires AllMeet(views, txs, fates) && p.stop.None?
    requires views[0] == ViewOf(p) && views[|txs|] == ViewOf(q)
    ensures Selects(p, q, txs, fates, n)
  {
    assert txs[..|txs|] == txs && fates[..|txs|] == fates;
    ViewsSelect(views, txs, fates, |txs|);
    n := ViewsStop(views, txs, fates, |txs|);
  }

  /**
   The forced loop adds exactly the transactions whose ruling keeps them, and stops at the first
   faulty one, with its fault.
   */
  lemma ForcedSelectsExactly(p: Progress, start: Draft, cfg: Config, env: BlockEnv, evm: Evm, forced: seq<ForcedTx>,
                             size: CW.Hash -> U64) returns (fates: seq<Fate>, n: nat)
    requires Sound(evm) && ConsistentCode(evm, size) && Good(p, start, env, evm, size) && p.stop.None?
    ensures |fates| == |forced|
    ensures forall i :: 0 <= i < |forced| ==> fates[i] == ForcedFateAt(p, cfg, env, evm, forced, i, size)
    ensures Selects(p, RunForced(p, cfg, env, evm, forced), TxsOf(forced), fates, n)
  {
    fates := seq(|forced|, i requires 0 <= i < |forced| => ForcedFateAt(p, cfg, env, evm, forced, i, size));
    var views := seq(|forced| + 1, i requires 0 <= i <= |forced| => ViewOf(RunForced(p, cfg, env, evm, forced[..i])));
    forall i | 0 <= i < |forced| ensures Meets(views[i], views[i + 1], TxsOf(forced)[i], fates[i]) {
      ForcedMeets(p, start, cfg, env, evm, forced, i, size);
    }
    assert forced[..|forced|] == forced && forced[..0] == [];
    n := ViewsGiveSelection(p, RunForced(p, cfg, env, evm, forced), views, TxsOf(forced), fates);
  }

  function TxsOfPool(pool: seq<Candidate>): (txs: seq<Tx>)
    ensures |txs| == |pool| && forall i :: 0 <= i < |txs| ==> txs[i] == pool[i].tx
  {
    seq(|pool|, i requires 0 <= i < |pool| => pool[i].tx)
  }

  /**
   The pool loop adds exactly the candidates whose fate is to be taken, marks exactly those it must
   not see again, and stops at the first candidate that halts it.
   */
  lemma PoolSelectsExactly(p: Progress, start: Draft, cfg: Config, env: BlockEnv, evm: Evm, pool: seq<Candidate>,
                           size: CW.Hash -> U64) returns (fates: seq<Fate>, n: nat)
    requires Sound(evm) && ConsistentCode(evm, size) && Good(p, start, env, evm, size) && p.stop.None?
    ensures |fates| == |pool|
    ensures forall i :: 0 <= i < |pool| ==> fates[i] == PoolFateAt(p, cfg, env, evm, pool, i, size)
    ensures Selects(p, RunPool(p, cfg, env, evm, pool), TxsOfPool(pool), fates, n)
  {
    fates := seq(|pool|, i requires 0 <= i < |pool| => PoolFateAt(p, cfg, env, evm, pool, i, size));
    var views := seq(|pool| + 1, i requires 0 <= i <= |pool| => ViewOf(RunPool(p, cfg, env, evm, pool[..i])));
    forall i | 0 <= i < |pool| ensures Meets(views[i], views[i + 1], TxsOfPool(pool)[i], fates[i]) {
      PoolMeets(p, start, cfg, env, evm, pool, i, size);
    }
    assert pool[..|pool|] == pool && pool[..0] == [];
    n := ViewsGiveSelection(p, RunPool(p, cfg, env, evm, pool), views, TxsOfPool(pool), fates);
  }

  // ----- The whole build ---------------------------------------------------------------------------------------------

  /** A system phase is within the block's code budget. */
  ghost predicate SystemFits(cfg: Config, metered: seq<seq<CW.Op>>, ops: seq<CW.Op>, size: CW.Hash -> U64) {
    && (cfg.maxCodeBytes < U64_MAX ==> CW.BlockBytes(metered + [ops], size) <= cfg.maxCodeBytes)
    && CW.Ticks(ops) <= U64_MAX
  }

  lemma SystemRules(cfg: Config, m: CW.Meter, metered: seq<seq<CW.Op>>, ops: seq<CW.Op>, size: CW.Hash -> U64)
    requires CW.Consistent(ops, size) && m.maxCodeBytes == cfg.maxCodeBytes && m.maxSteps == U64_MAX
    requires m.maxCodeBytes < U64_MAX ==> CW.Accounted(m, metered, size)
    ensures MeterSystem(m, ops).Some? <==> SystemFits(cfg, metered, ops, size)
  {
    CW.OpsAreMetered(m, ops, size);
    if m.maxCodeBytes < U64_MAX { CW.TryIsAccounted(m, metered, ops, size); }
  }

  /** A block is prepared exactly when the pre-execution changes succeed and the system calls' code fits. */
  lemma PreparesIff(cfg: Config, evm: Evm, db: State, budget: nat, req: Request, size: CW.Hash -> U64)
    requires Environment(evm, req, size)
    ensures var hook := if req.trieTask then Some([]) else None;
            var (x, e) := PreExecution(NewExec(db).(hook := hook), EnvOf(cfg, req), evm, budget);
            match Payload.Prepare(cfg, evm, db, budget, req)
            case Err(error) =>
              error == (if e.Some? then PreExecutionFailed(e.value) else SystemCodeLimit(cfg.maxCodeBytes))
              && (e.Some? || !SystemFits(cfg, [], req.systemOps, size))
            case Ok(start) => && e == None && SystemFits(cfg, [], req.systemOps, size)
                              && start.exec == x && start.body == [] && start.metered == [req.systemOps]
  {
    SystemRules(cfg, CW.NewMeter(cfg.maxCodeBytes, U64_MAX), [], req.systemOps, size);
  }

  /** How a block ends whose loops have filled it: sealed, unless sealing fails or its system calls do not fit. */
  ghost function Sealing(cfg: Config, p: Progress, req: Request, size: CW.Hash -> U64): Outcome {
    if !req.finishes then NotBuilt(FinishFailed)
    else if !SystemFits(cfg, p.draft.metered, req.finishOps, size) then NotBuilt(SystemCodeLimit(cfg.maxCodeBytes))
    else if req.noTxPool then Freeze(p.totals)
    else Better(p.totals)
  }

  /** How the ends of the loops, `p` after the forced list and `q` after the pool, decide the build. */
  ghost function Decision(cfg: Config, p: Progress, q: Progress, req: Request, size: CW.Hash -> U64): Outcome {
    match p.stop
    case Some(Fail(error)) => NotBuilt(error)
    case Some(_) => Cancelled
    case None =>
      if req.noTxPool then Sealing(cfg, p, req, size)
      else
        match q.stop
        case Some(Fail(error)) => NotBuilt(error)
        case Some(Cancel) => Cancelled
        case _ =>
          if req.bestFees.Some? && q.totals.fees <= req.bestFees.value then Aborted(q.totals.fees)
          else Sealing(cfg, q, req, size)
  }

  /** The forced list is longer than a byte limit below 2^64 - 1. */
  predicate ForcedTooLong(cfg: Config, forced: seq<ForcedTx>) {
    cfg.maxDa.Some? && cfg.maxDa.value < U64_MAX && LengthOf(TxsOf(forced)) > cfg.maxDa.value
  }

  lemma FillFollowsFates(cfg: Config, env: BlockEnv, evm: Evm, start: Draft, req: Request, size: CW.Hash -> U64)
    returns (forced: seq<Fate>, n: nat, pool: seq<Fate>, m: nat)
    requires Sound(evm) && ConsistentCode(evm, size) && Good(FirstPoint(start), start, env, evm, size)
    requires req.forced.Some? && !ForcedTooLong(cfg, req.forced.value)
    ensures var p := Forced(cfg, env, evm, start, req);
            && |forced| == |req.forced.value| && Selects(FirstPoint(start), p, TxsOf(req.forced.value), forced, n)
            && (forall i :: 0 <= i < |forced| ==>
                              forced[i] == ForcedFateAt(FirstPoint(start), cfg, env, evm, req.forced.value, i, size))
            && (p.stop.None? && !req.noTxPool ==>
                  && |pool| == |req.pool| && Selects(p, Filled(cfg, env, evm, start, req), TxsOfPool(req.pool), pool, m)
                  && forall i :: 0 <= i < |pool| ==> pool[i] == PoolFateAt(p, cfg, env, evm, req.pool, i, size))
  {
    var p := Forced(cfg, env, evm, start, req);
    forced, n := ForcedSelectsExactly(FirstPoint(start), start, cfg, env, evm, req.forced.value, size);
    pool, m := [], 0;
    if p.stop.None? && !req.noTxPool {
      ForcedIsGood(FirstPoint(start), start, cfg, env, evm, req.forced.value, size);
      pool, m := PoolSelectsExactly(p, start, cfg, env, evm, req.pool, size);
    }
  }

  lemma RefusedBeforeLoops(cfg: Config, env: BlockEnv, evm: Evm, start: Draft, req: Request)
    ensures req.forced.None? ==> Fill(cfg, env, evm, start, req) == Err(NotBuilt(ForcedDecodeFailed))
    ensures req.forced.Some? && ForcedTooLong(cfg, req.forced.value) ==>
              && cfg.maxDa.Some?
              && Fill(cfg, env, evm, start, req)
                 == Err(NotBuilt(ForcedDaLimit(SatSum(req.forced.value), cfg.maxDa.value)))
  {
    if req.forced.Some? { ForcedDaBytesIsSaturatedSum(req.forced.value); }
  }

  lemma FillIsDecided(cfg: Config, env: BlockEnv, evm: Evm, start: Draft, req: Request, size: CW.Hash -> U64)
    requires req.forced.Some? && !ForcedTooLong(cfg, req.forced.value)
    ensures var p, q := Forced(cfg, env, evm, start, req), Filled(cfg, env, evm, start, req);
            match Fill(cfg, env, evm, start, req)
            case Err(o) => o == Decision(cfg, p, q, req, size)
            case Ok(r) => r == q && Decision(cfg, p, q, req, size) == Sealing(cfg, q, req, size)
  {
    ForcedDaBytesIsSaturatedSum(req.forced.value);
  }

  function SatSum(forced: seq<ForcedTx>): U64 { Min(LengthOf(TxsOf(forced)), U64_MAX) }

  lemma SealIsDecided(cfg: Config, env: BlockEnv, evm: Evm, start: Draft, p: Progress, req: Request,
                      size: CW.Hash -> U64)
    requires CW.Consistent(req.finishOps, size) && Good(p, start, env, evm, size)
    requires start.meter.maxCodeBytes == cfg.maxCodeBytes && start.meter.maxSteps == U64_MAX
    ensures Seal(cfg, p, req).0 == Sealing(cfg, p, req, size)
  {
    SystemRules(cfg, p.draft.meter, p.draft.metered, req.finishOps, size);
  }

  /**
   How a prepared build ends, from the fates of its candidates: a forced list that does not decode or is
   too long, and the first faulty forced transaction, fail it with their own error; then the pool's fatal
   error or a cancellation; then fees that do not beat the best; then sealing. Otherwise it is built.
   */
  ghost predicate DecidedBy(cfg: Config, env: BlockEnv, evm: Evm, start: Draft, req: Request, size: CW.Hash -> U64,
                            o: Outcome, forced: seq<Fate>, n: nat, pool: seq<Fate>, m: nat)
  {
    if req.forced.None? then o == NotBuilt(ForcedDecodeFailed)
    else if ForcedTooLong(cfg, req.forced.value) then
      cfg.maxDa.Some? && o == NotBuilt(ForcedDaLimit(SatSum(req.forced.value), cfg.maxDa.value))
    else
      var p, q := Forced(cfg, env, evm, start, req), Filled(cfg, env, evm, start, req);
      && |forced| == |req.forced.value| && Selects(FirstPoint(start), p, TxsOf(req.forced.value), forced, n)
      && (forall i :: 0 <= i < |forced| ==>
                        forced[i] == ForcedFateAt(FirstPoint(start), cfg, env, evm, req.forced.value, i, size))
      && (p.stop.None? && !req.noTxPool ==>
            && |pool| == |req.pool| && Selects(p, q, TxsOfPool(req.pool), pool, m)
            && (forall i :: 0 <= i < |pool| ==> pool[i] == PoolFateAt(p, cfg, env, evm, req.pool, i, size)))
      && o == Decision(cfg, p, q, req, size)
  }

  lemma CompleteIsDecided(cfg: Config, env: BlockEnv, evm: Evm, start: Draft, req: Request, size: CW.Hash -> U64)
    requires Environment(evm, req, size) && Good(FirstPoint(start), start, env, evm, size)
    requires start.meter.maxCodeBytes == cfg.maxCodeBytes && start.meter.maxSteps == U64_MAX
    requires req.forced.Some? && !ForcedTooLong(cfg, req.forced.value)
    ensures Complete(cfg, env, evm, start, req).0
            == Decision(cfg, Forced(cfg, env, evm, start, req), Filled(cfg, env, evm, start, req), req, size)
  {
    FillIsDecided(cfg, env, evm, start, req, size);
    FilledIsGood(cfg, env, evm, start, req, size);
    SealIsDecided(cfg, env, evm, start, Filled(cfg, env, evm, start, req), req, size);
  }

  lemma CompleteFollowsFates(cfg: Config, env: BlockEnv, evm: Evm, start: Draft, req: Request, size: CW.Hash -> U64)
    returns (forced: seq<Fate>, n: nat, pool: seq<Fate>, m: nat)
    requires Environment(evm, req, size) && Good(FirstPoint(start), start, env, evm, size)
    requires start.meter.maxCodeBytes == cfg.maxCodeBytes && start.meter.maxSteps == U64_MAX
    ensures DecidedBy(cfg, env, evm, start, req, size, Complete(cfg, env, evm, start, req).0, forced, n, pool, m)
  {
    forced, n, pool, m := [], 0, [], 0;
    RefusedBeforeLoops(cfg, env, evm, start, req);
    if req.forced.Some? && !ForcedTooLong(cfg, req.forced.value) {
      forced, n, pool, m := FillFollowsFates(cfg, env, evm, start, req, size);
      CompleteIsDecided(cfg, env, evm, start, req, size);
    }
  }

  lemma FilledIsGood(cfg: Config, env: BlockEnv, evm: Evm, start: Draft, req: Request, size: CW.Hash -> U64)
    requires Sound(evm) && ConsistentCode(evm, size) && Good(FirstPoint(start), start, env, evm, size)
    requires req.forced.Some?
    ensures Good(Filled(cfg, env, evm, start, req), start, env, evm, size)
  {
    ForcedIsGood(FirstPoint(start), start, cfg, env, evm, req.forced.value, size);
    PoolIsGood(Forced(cfg, env, evm, start, req), start, cfg, env, evm, req.pool, size);
  }

  /** Every prepared build is decided by the fates of its candidates. */
  lemma BuildFollowsFates(cfg: Config, evm: Evm, db: State, budget: nat, req: Request, size: CW.Hash -> U64)
    returns (forced: seq<Fate>, n: nat, pool: seq<Fate>, m: nat)
    requires Environment(evm, req, size) && Payload.Prepare(cfg, evm, db, budget, req).Ok?
    ensures DecidedBy(cfg, EnvOf(cfg, req), evm, Payload.Prepare(cfg, evm, db, budget, req).value, req, size,
                      Build(cfg, evm, db, budget, req).0, forced, n, pool, m)
  {
    var start := Payload.Prepare(cfg, evm, db, budget, req).value;
    PreparedIsGood(cfg, evm, db, budget, req, size);
    forced, n, pool, m := CompleteFollowsFates(cfg, EnvOf(cfg, req), evm, start, req, size);
  }

  /**
   Every payload is booked: its database is the fork transitions, the system call and the updates that
   the interpreter returns for its transactions, each asked for after its predecessors, on the parent
   state; its gas is theirs, and each receipt is that of its transaction.
   */
  lemma PayloadIsBooked(cfg: Config, evm: Evm, db: State, budget: nat, req: Request, size: CW.Hash -> U64)
    returns (outs: seq<Verdict>)
    requires Environment(evm, req, size) && Built(Build(cfg, evm, db, budget, req).0)
    ensures var (env, block) := (EnvOf(cfg, req), Build(cfg, evm, db, budget, req).1);
            && Executes(PreparedState(db, env, evm), 0, env.gasLimit, evm, Plain(block.body), outs)
            && block.exec.db == CommitAll(PreparedState(db, env, evm), UpdatesOf(outs))
            && block.exec.gasUsed == GasBefore(0, outs, |outs|) && |block.exec.receipts| == |block.body|
            && forall i :: 0 <= i < |block.body| ==> Receipted(block.exec.receipts[i], 0, block.body[i], outs, i)
  {
    var env, block := EnvOf(cfg, req), Build(cfg, evm, db, budget, req).1;
    ImporterAgrees(cfg, evm, db, budget, req, size, budget);
    outs := RunsBooked(db, env, evm, budget, Plain(block.body));
    forall i | 0 <= i < |block.body| ensures Receipted(block.exec.receipts[i], 0, block.body[i], outs, i) {
      assert Receipted(block.exec.receipts[i], 0, Plain(block.body)[i].0, outs, i);
    }
  }

  lemma RunsBooked(db: State, env: BlockEnv, evm: Evm, budget: nat, txs: seq<(Tx, Compression)>)
    returns (outs: seq<Verdict>)
    requires Sound(evm) && PreExecution(NewExec(db), env, evm, budget).1 == None
    requires RunTxs(PreExecution(NewExec(db), env, evm, budget).0, env, evm, txs).1 == None
    ensures var (prepared, y) := (PreparedState(db, env, evm),
                                  RunTxs(PreExecution(NewExec(db), env, evm, budget).0, env, evm, txs).0);
            && Executes(prepared, 0, env.gasLimit, evm, txs, outs)
            && y.db == CommitAll(prepared, UpdatesOf(outs)) && y.gasUsed == GasBefore(0, outs, |outs|)
            && |y.receipts| == |txs|
            && forall i :: 0 <= i < |txs| ==> Receipted(y.receipts[i], 0, txs[i].0, outs, i)
  {
    var x := PreExecution(NewExec(db), env, evm, budget).0;
    PreExecutionKeepsGas(NewExec(db), env, evm, budget);
    PreExecutionRunsTheStages(NewExec(db), env, evm, budget);
    assert x.db == PreparedState(db, env, evm) && x.receipts == [] && x.gasUsed == 0;
    outs := RunTxsIsBooked(x, env, evm, txs);
    assert txs[..|outs|] == txs;
    var y := RunTxs(x, env, evm, txs).0;
    forall i | 0 <= i < |txs| ensures Receipted(y.receipts[i], 0, txs[i].0, outs, i) {
      assert Receipted(y.receipts[|x.receipts| + i], x.gasUsed, txs[i].0, outs, i);
    }
  }
}
