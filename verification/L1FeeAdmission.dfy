/** Admission of a pool transaction against the L1-fee cache: one read of the cache decides the fee inputs. */
module L1FeeAdmission {
  import opened MachineInts
  import opened L1FeeCache

  const MAX_ROLLUP_FEE_PRE_TSUKI: nat := 0xFFFF_FFFF_FFFF_FFFF
  const MAX_ROLLUP_FEE_TSUKI: nat := 0xFFFF_FFFF_FFFF_FFFF_FFFF_FFFF

  datatype Kind = L1Message | Blob | Ordinary

  datatype PoolTx = PoolTx(hash: Hash, kind: Kind, cost: U256)

  /** What the wrapped Ethereum validator answers. */
  datatype Inner = Accepts(balance: U256) | Refuses

  /** Chain rules the validator consults: a transaction's L1 data fee under given inputs, and Tsuki's activation. */
  datatype Rules = Rules(
    dataFee: (U64, U64, nat, PoolTx) -> Option<U256>, tsuki: Option<U64>, simulates: PoolTx -> bool)

  datatype Verdict =
    | Valid(balance: U256)
    | InvalidKind
    | InnerRefused
    | FeeStateUnavailable(error: FeeError)
    | FeeFailed
    | FeeTooHigh
    | InsufficientFunds(got: U256, expected: U256)
    | SimulationFailed

  function SatAdd256(a: U256, b: U256): U256 {
    if a + b <= U256_MAX then a + b else U256_MAX
  }

  function MaximumFee(rules: Rules, timestamp: U64): nat {
    if rules.tsuki.Some? && rules.tsuki.value <= timestamp then MAX_ROLLUP_FEE_TSUKI else MAX_ROLLUP_FEE_PRE_TSUKI
  }

  function CheckFee(rules: Rules, snapshot: Snapshot, tx: PoolTx, balance: U256): Verdict {
    match rules.dataFee(snapshot.timestamp, snapshot.number, snapshot.l1BlockInfo, tx)
    case None => FeeFailed
    case Some(fee) =>
      if fee >= MaximumFee(rules, snapshot.timestamp) then FeeTooHigh
      else if SatAdd256(tx.cost, fee) > balance then InsufficientFunds(balance, SatAdd256(tx.cost, fee))
      else Valid(balance)
  }

  /** `validate_basic`, given the cache as it was read. */
  function ValidateBasic(rules: Rules, cache: Cache, tx: PoolTx, inner: Inner): Verdict {
    if tx.kind != Ordinary then InvalidKind
    else
      match cache
      case Unavailable(error) => FeeStateUnavailable(error)
      case Ready(snapshot) => if inner.Refuses? then InnerRefused else CheckFee(rules, snapshot, tx, inner.balance)
      case Disabled => if inner.Refuses? then InnerRefused else Valid(inner.balance)
  }

  /** `validate_one`: the simulation runs last, and only on what is otherwise valid. */
  function ValidateOne(rules: Rules, cache: Cache, tx: PoolTx, inner: Inner): Verdict {
    var v := ValidateBasic(rules, cache, tx, inner);
    if v.Valid? && !rules.simulates(tx) then SimulationFailed else v
  }

  /** The saturating cost comparison is exact, except for a balance of 2^256 - 1. */
  lemma CostCheckIff(cost: U256, fee: U256, balance: U256)
    ensures SatAdd256(cost, fee) <= balance <==> cost + fee <= balance || balance == U256_MAX
  {
  }

  /** 2^64 - 1 before Tsuki, and 2^96 - 1 from its activation on. */
  function FeeCap(rules: Rules, timestamp: U64): nat {
    match rules.tsuki
    case Some(activation) =>
      if activation <= timestamp then 79_228_162_514_264_337_593_543_950_335 else 18_446_744_073_709_551_615
    case None => 18_446_744_073_709_551_615
  }

  /**
   Why a transaction is not admitted, in the order of the checks: its kind, an unavailable cache, the
   wrapped validator, a fee that cannot be computed or is not below its cap, the cost, the simulation.
   */
  lemma RefusalNamesItsCause(rules: Rules, cache: Cache, tx: PoolTx, inner: Inner)
    ensures var v := ValidateOne(rules, cache, tx, inner);
            var fee := if cache.Ready? then
                         rules.dataFee(cache.snapshot.timestamp, cache.snapshot.number, cache.snapshot.l1BlockInfo, tx)
                       else None;
            && (v == InvalidKind <==> tx.kind == Blob || tx.kind == L1Message)
            && (v.FeeStateUnavailable? <==> tx.kind == Ordinary && cache.Unavailable?)
            && (v.FeeStateUnavailable? ==> v.error == cache.error)
            && (v == InnerRefused <==> tx.kind == Ordinary && !cache.Unavailable? && inner.Refuses?)
            && (v == FeeFailed <==> tx.kind == Ordinary && inner.Accepts? && cache.Ready? && fee.None?)
            && (v == FeeTooHigh <==> && tx.kind == Ordinary && inner.Accepts? && cache.Ready? && fee.Some?
                                     && fee.value >= FeeCap(rules, cache.snapshot.timestamp))
            && (v.InsufficientFunds? <==> && tx.kind == Ordinary && inner.Accepts? && cache.Ready? && fee.Some?
                                          && fee.value < FeeCap(rules, cache.snapshot.timestamp)
                                          && inner.balance < tx.cost + fee.value && inner.balance < U256_MAX)
            && (v.InsufficientFunds? ==> && v.got == inner.balance
                                         && v.expected == Min(tx.cost + fee.value, U256_MAX))
  {
  }

  // ----- Validations beside the refreshes -----------------------------------------------------------------

  /** A validation that has read the cache. */
  datatype Job = Job(tx: PoolTx, seen: Cache, readAt: nat)

  datatype Answer = Answer(tx: PoolTx, inner: Inner, verdict: Verdict, readAt: nat, at: nat)

  /** The cache with its refreshes, the validations under way, and the answers given so far. */
  datatype Desk = Desk(sys: Sys, jobs: map<nat, Job>, answers: seq<Answer>)

  datatype Move = CacheMove(action: Action) | ReadCache(id: nat, tx: PoolTx) | GiveAnswer(id: nat, inner: Inner)

  function Take(world: World, rules: Rules, d: Desk, m: Move): (e: Desk)
    requires Started(d.sys)
    ensures Started(e.sys)
  {
    match m
    case CacheMove(a) => d.(sys := Act(world, d.sys, a))
    case ReadCache(id, tx) =>
      if id in d.jobs then d else d.(jobs := d.jobs[id := Job(tx, CacheOf(d.sys), Now(d.sys))])
    case GiveAnswer(id, inner) =>
      if id !in d.jobs then d
      else
        var job := d.jobs[id];
        d.(jobs := d.jobs - {id},
           answers := d.answers
             + [Answer(job.tx, inner, ValidateOne(rules, job.seen, job.tx, inner), job.readAt, Now(d.sys))])
  }

  function TakeAll(world: World, rules: Rules, d: Desk, moves: seq<Move>): (e: Desk)
    requires Started(d.sys)
    ensures Started(e.sys)
    decreases |moves|
  {
    if moves == [] then d else Take(world, rules, TakeAll(world, rules, d, moves[..|moves| - 1]), moves[|moves| - 1])
  }

  predicate JobGood(s: Sys, j: Job) { j.readAt < |s.caches| && s.caches[j.readAt] == j.seen }

  /** The verdict is that of the cache at the time it was read. */
  predicate AnswerGood(rules: Rules, s: Sys, a: Answer) {
    a.readAt <= a.at < |s.caches| && a.verdict == ValidateOne(rules, s.caches[a.readAt], a.tx, a.inner)
  }

  ghost predicate DeskInv(world: World, rules: Rules, d: Desk) {
    && Inv(world, d.sys) && Held(d.sys) && GoodCache(world, d.sys.caches[0])
    && (forall id <- d.jobs :: JobGood(d.sys, d.jobs[id]))
    && (forall a <- d.answers :: AnswerGood(rules, d.sys, a))
  }

  /** A validator right after construction, with nothing to validate yet. */
  predicate Opened(world: World, d: Desk) { Fresh(world, d.sys) && d.jobs == map[] && d.answers == [] }

  /** What was read and answered stays true as time passes. */
  lemma GrowthKeeps(rules: Rules, s: Sys, t: Sys, j: Job, a: Answer)
    requires |s.caches| <= |t.caches| && t.caches[..|s.caches|] == s.caches
    ensures JobGood(s, j) ==> JobGood(t, j)
    ensures AnswerGood(rules, s, a) ==> AnswerGood(rules, t, a)
  {
    assert forall i :: 0 <= i < |s.caches| ==> t.caches[i] == t.caches[..|s.caches|][i];
  }

  lemma CacheMoveKeeps(world: World, rules: Rules, d: Desk, a: Action)
    requires DeskInv(world, rules, d)
    ensures DeskInv(world, rules, Take(world, rules, d, CacheMove(a)))
  {
    ActKeeps(world, d.sys, a);
    ActHolds(world, d.sys, a);
    ActGrows(world, d.sys, a);
    forall j, answer { GrowthKeeps(rules, d.sys, Act(world, d.sys, a), j, answer); }
    assert GoodCache(world, Act(world, d.sys, a).caches[..|d.sys.caches|][0]);
  }

  lemma TakeKeeps(world: World, rules: Rules, d: Desk, m: Move)
    requires DeskInv(world, rules, d)
    ensures DeskInv(world, rules, Take(world, rules, d, m))
  {
    if m.CacheMove? { CacheMoveKeeps(world, rules, d, m.action); }
  }

  /** Until it is answered a validation keeps its transaction and the cache as it read it, whatever else happens. */
  lemma JobIsFixed(world: World, rules: Rules, d: Desk, m: Move, id: nat)
    requires Started(d.sys) && id in d.jobs
    ensures var e := Take(world, rules, d, m);
            if m.GiveAnswer? && m.id == id then
              && id !in e.jobs && |e.answers| == |d.answers| + 1
              && e.answers[|d.answers|] == Answer(d.jobs[id].tx, m.inner,
                                                  ValidateOne(rules, d.jobs[id].seen, d.jobs[id].tx, m.inner),
                                                  d.jobs[id].readAt, Now(d.sys))
            else id in e.jobs && e.jobs[id] == d.jobs[id]
  {
  }

  /** Under every interleaving of refreshes, head moves and validations the invariant holds. */
  lemma {:induction false} EveryDeskIsGood(world: World, rules: Rules, d: Desk, moves: seq<Move>)
    requires Opened(world, d)
    ensures DeskInv(world, rules, TakeAll(world, rules, d, moves))
    decreases |moves|
  {
    if moves != [] {
      EveryDeskIsGood(world, rules, d, moves[..|moves| - 1]);
      TakeKeeps(world, rules, TakeAll(world, rules, d, moves[..|moves| - 1]), moves[|moves| - 1]);
    } else {
      EveryRunIsGood(world, d.sys, []);
      EveryRunHolds(world, d.sys, []);
    }
  }

  /**
   In every run, with fee checking enabled, a validation ends in admission exactly when the cache held
   one head's snapshot at the time it was read, and under that head's timestamp, number and fee inputs
   the fee is below the cap and cost plus fee is within the balance, whatever happened to the cache
   between that read and the answer. With fee checking disabled only the other checks count.
   */
  lemma AdmittedIff(world: World, rules: Rules, d: Desk, moves: seq<Move>, a: Answer)
    requires Opened(world, d) && a in TakeAll(world, rules, d, moves).answers
    ensures var caches := TakeAll(world, rules, d, moves).sys.caches;
            && a.readAt <= a.at < |caches|
            && (!caches[a.readAt].Disabled? ==>
                  (a.verdict.Valid?
                   <==> && a.tx.kind == Ordinary && a.inner.Accepts? && rules.simulates(a.tx) && caches[a.readAt].Ready?
                        && var h := caches[a.readAt].snapshot.headHash;
                           var fee := rules.dataFee(world.timestamp(h), world.number(h), world.oracle(h), a.tx);
                           && fee.Some? && fee.value < FeeCap(rules, world.timestamp(h))
                           && (a.tx.cost + fee.value <= a.inner.balance || a.inner.balance == U256_MAX)))
            && (caches[a.readAt].Disabled? ==>
                  (a.verdict.Valid? <==> a.tx.kind == Ordinary && a.inner.Accepts? && rules.simulates(a.tx)))
            && (a.verdict.Valid? ==> a.verdict.balance == a.inner.balance)
  {
    EveryDeskIsGood(world, rules, d, moves);
    HistoryIsGood(world, TakeAll(world, rules, d, moves).sys, a.readAt);
  }

  /** The window of a failed refresh: from its publication up to the next one. */
  predicate InWindow(ps: seq<Publication>, i: nat, t: nat) {
    i < |ps| && ps[i].value.Unavailable? && ps[i].at <= t && forall j :: i < j < |ps| ==> t < ps[j].at
  }

  lemma {:induction false} WindowIsInForce(initial: Cache, ps: seq<Publication>, i: nat, t: nat)
    requires InWindow(ps, i, t)
    ensures InForce(initial, ps, t) == ps[i].value
    decreases |ps|
  {
    if i < |ps| - 1 { WindowIsInForce(initial, ps[..|ps| - 1], i, t); }
  }

  /** No validation whose cache read falls between a failed refresh and the next publication ends in admission. */
  lemma NothingAdmittedInWindow(world: World, rules: Rules, d: Desk, moves: seq<Move>, a: Answer, i: nat)
    requires Opened(world, d) && a in TakeAll(world, rules, d, moves).answers
    requires InWindow(TakeAll(world, rules, d, moves).sys.publications, i, a.readAt)
    ensures !a.verdict.Valid?
  {
    var s := TakeAll(world, rules, d, moves).sys;
    EveryDeskIsGood(world, rules, d, moves);
    WindowIsInForce(s.caches[0], s.publications, i, a.readAt);
  }

  // ----- An answer inside the window -------------------------------------------------------------------------

  /** One refresh whose first head read fails. */
  const FAILING_REFRESH := [Request(0), Acquire(0), Step(Works, None), Step(Fails, None), Step(Works, None)]

  function CacheMoves(actions: seq<Action>): (moves: seq<Move>)
    ensures |moves| == |actions| && forall i :: 0 <= i < |moves| ==> moves[i] == CacheMove(actions[i])
  {
    seq(|actions|, i requires 0 <= i < |actions| => CacheMove(actions[i]))
  }

  lemma TakeSnoc(world: World, rules: Rules, d: Desk, moves: seq<Move>, m: Move)
    requires Started(d.sys)
    ensures TakeAll(world, rules, d, moves + [m]) == Take(world, rules, TakeAll(world, rules, d, moves), m)
  {
    assert (moves + [m])[..|moves + [m]| - 1] == moves;
  }

  /** Cache moves leave the validations alone. */
  lemma {:induction false} CacheMovesRun(world: World, rules: Rules, d: Desk, first: Move, actions: seq<Action>)
    requires Started(d.sys)
    ensures var e := Take(world, rules, d, first);
            TakeAll(world, rules, d, [first] + CacheMoves(actions)) == e.(sys := Run(world, e.sys, actions))
    decreases |actions|
  {
    if actions == [] {
      assert [first] + CacheMoves(actions) == [] + [first];
      TakeSnoc(world, rules, d, [], first);
    } else {
      var n := |actions| - 1;
      CacheMovesRun(world, rules, d, first, actions[..n]);
      assert [first] + CacheMoves(actions) == ([first] + CacheMoves(actions[..n])) + [CacheMove(actions[n])];
      TakeSnoc(world, rules, d, [first] + CacheMoves(actions[..n]), CacheMove(actions[n]));
    }
  }

  lemma RunSnoc(world: World, s: Sys, actions: seq<Action>, a: Action)
    requires Started(s)
    ensures Run(world, s, actions + [a]) == Act(world, Run(world, s, actions), a)
  {
    assert (actions + [a])[..|actions + [a]| - 1] == actions;
  }

  lemma RefreshBegins(world: World, s: Sys)
    requires Fresh(world, s) && s.caches[0].Ready?
    ensures var u := Run(world, s, FAILING_REFRESH[..3]);
            u.holder.Some? && u.holder.value.pc == ReadTarget(1) && u.publications == [] && |u.heads| == 4
  {
    RunSnoc(world, s, [], Request(0));
    RunSnoc(world, s, [Request(0)], Acquire(0));
    RunSnoc(world, s, [Request(0), Acquire(0)], Step(Works, None));
    assert [] + [Request(0)] == [Request(0)];
    assert [Request(0)] + [Acquire(0)] == [Request(0), Acquire(0)];
    assert [Request(0), Acquire(0)] + [Step(Works, None)] == FAILING_REFRESH[..3];
  }

  lemma FailingRefreshPublishes(world: World, s: Sys)
    requires Fresh(world, s) && s.caches[0].Ready?
    ensures var u := Run(world, s, FAILING_REFRESH);
            |u.heads| == 6 && |u.publications| == 1 && u.publications[0].at == 5 && u.publications[0].value.Unavailable?
  {
    RefreshBegins(world, s);
    RunSnoc(world, s, FAILING_REFRESH[..3], Step(Fails, None));
    RunSnoc(world, s, FAILING_REFRESH[..3] + [Step(Fails, None)], Step(Works, None));
    assert FAILING_REFRESH[..3] + [Step(Fails, None)] + [Step(Works, None)] == FAILING_REFRESH;
  }

  lemma OnlyAnswer(world: World, rules: Rules, d: Desk, cache: Cache, tx: PoolTx, inner: Inner)
    requires Started(d.sys) && d.answers == [] && d.jobs == map[0 := Job(tx, cache, 0)]
    ensures var e := Take(world, rules, d, GiveAnswer(0, inner));
            && |e.answers| == 1 && e.answers[0].readAt == 0 && e.answers[0].at == Now(d.sys) && e.sys == d.sys
            && e.answers[0].verdict == ValidateOne(rules, cache, tx, inner)
  {
  }

  /**
   The window is about the cache read, not the answer: a run in which a validation reads a ready cache,
   a refresh then fails and publishes, and the validation ends in admission inside the window.
   */
  lemma EarlierReadIsStillAdmitted(world: World, rules: Rules, d: Desk, tx: PoolTx, inner: Inner)
    requires Opened(world, d) && d.sys.caches[0].Ready? && ValidateOne(rules, d.sys.caches[0], tx, inner).Valid?
    ensures var moves := [ReadCache(0, tx)] + CacheMoves(FAILING_REFRESH) + [GiveAnswer(0, inner)];
            var e := TakeAll(world, rules, d, moves);
            && |e.answers| == 1 && e.answers[0].verdict.Valid?
            && e.answers[0].readAt == 0 && InWindow(e.sys.publications, 0, e.answers[0].at)
  {
    var moves := [ReadCache(0, tx)] + CacheMoves(FAILING_REFRESH);
    CacheMovesRun(world, rules, d, ReadCache(0, tx), FAILING_REFRESH);
    FailingRefreshPublishes(world, d.sys);
    TakeSnoc(world, rules, d, moves, GiveAnswer(0, inner));
    OnlyAnswer(world, rules, TakeAll(world, rules, d, moves), d.sys.caches[0], tx, inner);
  }

  // ----- The validator -----------------------------------------------------------------------------------

  class Validator {
    const cell: FeeCacheCell

    constructor (cell: FeeCacheCell)
      ensures this.cell == cell
    {
      this.cell := cell;
    }

    /** Other tasks may replace the cache at any time after it was read; the verdict does not notice. */
    method Validate(rules: Rules, tx: PoolTx, inner: Inner) returns (v: Verdict)
      modifies cell
      ensures v == ValidateOne(rules, old(cell.cache), tx, inner)
    {
      if tx.kind == Blob { return InvalidKind; }
      if tx.kind == L1Message { return InvalidKind; }
      var snapshot: Option<Snapshot> := None;
      match cell.cache {
        case Ready(s) => snapshot := Some(s);
        case Unavailable(error) => return FeeStateUnavailable(error);
        case Disabled =>
      }
      cell.cache := *;
      if inner.Refuses? { return InnerRefused; }
      if snapshot.Some? {
        v := CheckFee(rules, snapshot.value, tx, inner.balance);
        if !v.Valid? { return; }
      } else {
        v := Valid(inner.balance);
      }
      if !rules.simulates(tx) { v := SimulationFailed; }
    }
  }
}
