/**
 Bounding transaction validation with two semaphores: an in-flight permit is taken without waiting,
 a worker permit is waited for, and both move into a blocking job that drops the worker permit first.
 */
module AdmissionExecutor {
  import opened MachineInts

  type Id = nat

  const USIZE_MAX: nat := 0xFFFF_FFFF_FFFF_FFFF

  /**
   Permits free, and the requests that hold some: `waiting` ones an in-flight permit, `running` ones
   both, `releasing` ones the in-flight permit of a job that already dropped its worker permit.
   `callers` are the requests whose caller still waits for an answer.
   */
  datatype Pool = Pool(
    maxInflight: nat, maxWorkers: nat, freeInflight: nat, freeWorkers: nat,
    waiting: set<Id>, running: set<Id>, releasing: set<Id>, callers: set<Id>)
  {
    function Held(): set<Id> { waiting + running + releasing }
  }

  datatype Step = Arrive(id: Id) | AcquireWorker(id: Id) | Cancel(id: Id) | DropWorker(id: Id) | DropInflight(id: Id)

  /** `additional_validation_tasks.saturating_add(1).min(max_inflight)`. */
  function WorkerPermits(maxInflight: nat, additional: nat): nat {
    Min(Min(additional + 1, USIZE_MAX), maxInflight)
  }

  function NewPool(maxInflight: nat, additional: nat): Pool {
    var workers := WorkerPermits(maxInflight, additional);
    Pool(maxInflight, workers, maxInflight, workers, {}, {}, {}, {})
  }

  function Next(p: Pool, s: Step): Pool {
    match s
    case Arrive(id) =>
      if p.freeInflight == 0 || id in p.Held() + p.callers then p
      else p.(freeInflight := p.freeInflight - 1, waiting := p.waiting + {id}, callers := p.callers + {id})
    case AcquireWorker(id) =>
      if id !in p.waiting || p.freeWorkers == 0 then p
      else p.(freeWorkers := p.freeWorkers - 1, waiting := p.waiting - {id}, running := p.running + {id})
    case Cancel(id) =>
      if id in p.waiting then
        p.(freeInflight := p.freeInflight + 1, waiting := p.waiting - {id}, callers := p.callers - {id})
      else p.(callers := p.callers - {id})
    case DropWorker(id) =>
      if id !in p.running then p
      else p.(freeWorkers := p.freeWorkers + 1, running := p.running - {id}, releasing := p.releasing + {id})
    case DropInflight(id) =>
      if id !in p.releasing then p
      else p.(freeInflight := p.freeInflight + 1, releasing := p.releasing - {id}, callers := p.callers - {id})
  }

  /** Free and held permits add up, for both semaphores. */
  predicate Conserved(p: Pool) {
    && p.freeInflight + |p.waiting| + |p.running| + |p.releasing| == p.maxInflight
    && p.freeWorkers + |p.running| == p.maxWorkers <= p.maxInflight
    && p.waiting !! p.running && p.waiting !! p.releasing && p.running !! p.releasing
    && p.waiting <= p.callers
  }

  /** A caller waits for an answer only while its request holds a permit. */
  predicate CallersHold(p: Pool) { forall id <- p.callers :: id in p.waiting || id in p.running || id in p.releasing }

  lemma NextKeepsCallers(p: Pool, s: Step)
    requires CallersHold(p)
    ensures CallersHold(Next(p, s))
  {
  }

  lemma WorkerMovesConserve(p: Pool, id: Id)
    requires Conserved(p)
    ensures Conserved(Next(p, AcquireWorker(id))) && Conserved(Next(p, DropWorker(id)))
  {
  }

  lemma NextConserves(p: Pool, s: Step)
    requires Conserved(p)
    ensures Conserved(Next(p, s))
    ensures Next(p, s).maxInflight == p.maxInflight && Next(p, s).maxWorkers == p.maxWorkers
  {
    if s.AcquireWorker? || s.DropWorker? { WorkerMovesConserve(p, s.id); }
  }

  function Run(p: Pool, steps: seq<Step>): Pool {
    if steps == [] then p else Next(Run(p, steps[..|steps| - 1]), steps[|steps| - 1])
  }

  /**
   Under every interleaving of arrivals, cancellations and completions the permits are conserved,
   running jobs never exceed min(max_inflight, additional + 1), waiting and running ones together
   never exceed max_inflight, and a request that waits always has a free worker or a running holder.
   */
  lemma {:induction false} EveryRunIsBounded(maxInflight: nat, additional: nat, steps: seq<Step>)
    requires 0 < maxInflight <= USIZE_MAX
    ensures var p := Run(NewPool(maxInflight, additional), steps);
            && Conserved(p) && p.maxInflight == maxInflight && p.maxWorkers == Min(maxInflight, additional + 1)
            && |p.running| <= Min(maxInflight, additional + 1)
            && |p.waiting| + |p.running| <= maxInflight
            && (p.waiting != {} ==> p.freeWorkers > 0 || p.running != {})
            && CallersHold(p)
  {
    if steps != [] {
      EveryRunIsBounded(maxInflight, additional, steps[..|steps| - 1]);
      NextKeepsCallers(Run(NewPool(maxInflight, additional), steps[..|steps| - 1]), steps[|steps| - 1]);
      NextConserves(Run(NewPool(maxInflight, additional), steps[..|steps| - 1]), steps[|steps| - 1]);
    }
    var p := Run(NewPool(maxInflight, additional), steps);
    if p.running == {} { assert |p.running| == 0; }
  }

  /** Cancelling frees exactly a waiting request's permit; a running job keeps both of its permits. */
  lemma CancelFreesOnlyWaiting(p: Pool, id: Id)
    requires Conserved(p)
    ensures var q := Next(p, Cancel(id));
            && q.running == p.running && q.releasing == p.releasing && q.freeWorkers == p.freeWorkers
            && q.freeInflight == p.freeInflight + (if id in p.waiting then 1 else 0)
            && id !in q.waiting && id !in q.callers
  {
  }

  /**
   Once a request's job runs, it keeps running until it ends, whoever is cancelled, the request's own
   caller included; and it holds its in-flight permit until it drops it itself.
   */
  lemma {:induction false} RunningJobIsNeverCancelled(p: Pool, id: Id, steps: seq<Step>)
    requires id in p.running
    ensures DropWorker(id) !in steps ==> id in Run(p, steps).running
    ensures DropInflight(id) !in steps ==> id in Run(p, steps).running + Run(p, steps).releasing
  {
    if steps != [] {
      var prefix, last := steps[..|steps| - 1], steps[|steps| - 1];
      RunningJobIsNeverCancelled(p, id, prefix);
      assert last in steps && forall s <- prefix :: s in steps;
    }
  }

  /** A new request is turned away exactly when every in-flight permit is held. */
  lemma BusyIff(p: Pool, id: Id)
    requires Conserved(p) && id !in p.Held() + p.callers
    ensures id !in Next(p, Arrive(id)).waiting <==> |p.waiting| + |p.running| + |p.releasing| == p.maxInflight
  {
  }

  /** A job that has dropped its worker permit but not its in-flight permit already lets the next one run. */
  lemma WorkerIsFreedFirst(p: Pool, done: Id, next: Id)
    requires Conserved(p) && done in p.running && next in p.waiting
    ensures var q := Next(Next(p, DropWorker(done)), AcquireWorker(next));
            next in q.running && done in q.releasing && q.freeInflight == p.freeInflight
  {
  }

  // ----- Draining ------------------------------------------------------------------------------------------

  function Work(p: Pool): nat { 3 * |p.waiting| + 2 * |p.running| + |p.releasing| }

  /** As long as some request holds a permit, some step can be taken, and it brings the pool closer to idle. */
  lemma SomeStepMakesProgress(p: Pool) returns (s: Step)
    requires Conserved(p) && p.maxWorkers > 0 && p.Held() != {}
    ensures !s.Arrive? && !s.Cancel? && Work(Next(p, s)) < Work(p)
  {
    if p.releasing != {} {
      var id :| id in p.releasing;
      s := DropInflight(id);
    } else if p.running != {} {
      var id :| id in p.running;
      s := DropWorker(id);
    } else {
      assert |p.running| == 0;
      var id :| id in p.waiting;
      s := AcquireWorker(id);
    }
  }

  /** From every reachable state the pool can be drained without cancelling, and then all permits are free. */
  lemma {:induction false} DrainsToIdle(p: Pool) returns (steps: seq<Step>)
    requires Conserved(p) && p.maxWorkers > 0
    ensures (forall s <- steps :: !s.Arrive? && !s.Cancel?)
    ensures var q := Run(p, steps);
            Conserved(q) && Idle(q)
    decreases Work(p)
  {
    if p.Held() == {} {
      steps := [];
      assert |p.waiting| == 0 && |p.running| == 0 && |p.releasing| == 0;
    } else {
      var s := SomeStepMakesProgress(p);
      NextConserves(p, s);
      var rest := DrainsToIdle(Next(p, s));
      steps := [s] + rest;
      RunCons(p, s, rest);
    }
  }

  predicate Idle(p: Pool) {
    p.Held() == {} && p.freeInflight == p.maxInflight && p.freeWorkers == p.maxWorkers
  }

  /** No request arrives and none is cancelled, and every step changes something. */
  predicate IsDrain(p: Pool, steps: seq<Step>) {
    && (forall s <- steps :: !s.Arrive? && !s.Cancel?)
    && (forall i :: 0 <= i < |steps| ==> Next(Run(p, steps[..i]), steps[i]) != Run(p, steps[..i]))
  }

  lemma DrainStepLowersWork(p: Pool, s: Step)
    requires Conserved(p) && !s.Arrive? && !s.Cancel? && Next(p, s) != p
    ensures Conserved(Next(p, s)) && Work(Next(p, s)) + 1 == Work(p)
  {
    NextConserves(p, s);
  }

  lemma IdleIffNoWork(p: Pool)
    requires Conserved(p)
    ensures Idle(p) <==> Work(p) == 0
  {
    if p.Held() == {} { assert p.waiting == {} && p.running == {} && p.releasing == {}; }
  }

  /**
   In whatever order jobs start and end, a drain from `p` takes at most `Work(p)` steps, and it has
   emptied the pool exactly when it has taken that many; short of that it can go on.
   */
  lemma {:induction false} EveryDrainEndsIdle(p: Pool, steps: seq<Step>)
    requires Conserved(p) && p.maxWorkers > 0 && IsDrain(p, steps)
    ensures Conserved(Run(p, steps)) && Run(p, steps).maxWorkers == p.maxWorkers
    ensures Work(Run(p, steps)) + |steps| == Work(p)
    ensures Idle(Run(p, steps)) <==> |steps| == Work(p)
    ensures |steps| < Work(p) ==> exists s :: IsDrain(p, steps + [s])
  {
    var q := Run(p, steps);
    if steps != [] {
      var prefix, last := steps[..|steps| - 1], steps[|steps| - 1];
      assert forall i :: 0 <= i <= |prefix| ==> prefix[..i] == steps[..i];
      EveryDrainEndsIdle(p, prefix);
      DrainStepLowersWork(Run(p, prefix), last);
      NextConserves(Run(p, prefix), last);
    }
    IdleIffNoWork(q);
    if |steps| < Work(p) { DrainGoesOn(p, steps); }
  }

  lemma DrainGoesOn(p: Pool, steps: seq<Step>)
    requires IsDrain(p, steps) && Conserved(Run(p, steps)) && Run(p, steps).maxWorkers > 0
    requires Work(Run(p, steps)) > 0
    ensures exists s :: IsDrain(p, steps + [s])
  {
    IdleIffNoWork(Run(p, steps));
    var s := SomeStepMakesProgress(Run(p, steps));
    var more := steps + [s];
    assert forall i :: 0 <= i <= |steps| ==> more[..i] == steps[..i];
    assert IsDrain(p, more);
  }

  lemma RunSnoc(p: Pool, steps: seq<Step>, s: Step)
    ensures Run(p, steps + [s]) == Next(Run(p, steps), s)
  {
    assert (steps + [s])[..|steps + [s]| - 1] == steps;
  }

  lemma {:induction false} RunCons(p: Pool, s: Step, rest: seq<Step>)
    ensures Run(p, [s] + rest) == Run(Next(p, s), rest)
    decreases |rest|
  {
    if rest == [] {
      assert [s] + rest == [] + [s];
      RunSnoc(p, [], s);
    } else {
      var n := |rest| - 1;
      RunCons(p, s, rest[..n]);
      assert [s] + rest == ([s] + rest[..n]) + [rest[n]] && rest == rest[..n] + [rest[n]];
      RunSnoc(p, [s] + rest[..n], rest[n]);
      RunSnoc(Next(p, s), rest[..n], rest[n]);
    }
  }

  // ----- The executor ------------------------------------------------------------------------------------------

  class Semaphore {
    var permits: nat

    constructor (permits: nat)
      ensures this.permits == permits
    {
      this.permits := permits;
    }

    method TryAcquire() returns (ok: bool)
      modifies this
      ensures ok <==> old(permits) > 0
      ensures permits == if ok then old(permits) - 1 else old(permits)
    {
      ok := permits > 0;
      if ok { permits := permits - 1; }
    }

    method Release()
      modifies this
      ensures permits == old(permits) + 1
    {
      permits := permits + 1;
    }
  }

  class ValidationExecutor {
    const maxInflight: nat
    const maxWorkers: nat
    const inflight: Semaphore
    const workers: Semaphore
    var waiting: set<Id>
    var running: set<Id>
    var releasing: set<Id>
    var callers: set<Id>

    ghost predicate Valid()
      reads this, inflight, workers
    {
      inflight != workers && Conserved(View())
    }

    ghost function View(): Pool
      reads this, inflight, workers
    {
      Pool(maxInflight, maxWorkers, inflight.permits, workers.permits, waiting, running, releasing, callers)
    }

    constructor (maxInflight: nat, additional: nat)
      requires 0 < maxInflight <= USIZE_MAX
      ensures Valid() && View() == NewPool(maxInflight, additional)
      ensures fresh(inflight) && fresh(workers)
    {
      this.maxInflight := maxInflight;
      maxWorkers := Min(Min(additional + 1, USIZE_MAX), maxInflight);
      inflight := new Semaphore(maxInflight);
      workers := new Semaphore(Min(Min(additional + 1, USIZE_MAX), maxInflight));
      waiting, running, releasing, callers := {}, {}, {}, {};
    }

    /** The start of `validate_transaction`; false is the `Busy` answer. */
    method Enter(id: Id) returns (ok: bool)
      requires Valid() && id !in View().Held() + callers
      modifies this, inflight
      ensures Valid() && View() == Next(old(View()), Arrive(id))
      ensures ok <==> id in waiting
    {
      ok := inflight.TryAcquire();
      if ok {
        waiting := waiting + {id};
        callers := callers + {id};
      }
      NextConserves(old(View()), Arrive(id));
    }

    /** The awaited worker permit; both permits move into the blocking job. */
    method StartJob(id: Id) returns (ok: bool)
      requires Valid() && id in waiting
      modifies this, workers
      ensures Valid() && View() == Next(old(View()), AcquireWorker(id))
      ensures ok <==> old(workers.permits) > 0
    {
      ok := workers.TryAcquire();
      if ok {
        waiting := waiting - {id};
        running := running + {id};
      }
      NextConserves(old(View()), AcquireWorker(id));
    }

    /** The caller's future is dropped. */
    method CancelCaller(id: Id)
      requires Valid()
      modifies this, inflight
      ensures Valid() && View() == Next(old(View()), Cancel(id))
    {
      callers := callers - {id};
      if id in waiting {
        waiting := waiting - {id};
        inflight.Release();
      }
      NextConserves(old(View()), Cancel(id));
    }

    /** The end of the blocking job: its permits are dropped in reverse order of their declaration. */
    method EndJob(id: Id)
      requires Valid() && id in running
      modifies this, inflight, workers
      ensures Valid() && View() == Next(Next(old(View()), DropWorker(id)), DropInflight(id))
    {
      workers.Release();
      running := running - {id};
      releasing := releasing + {id};
      NextConserves(old(View()), DropWorker(id));
      ghost var middle := View();
      inflight.Release();
      releasing := releasing - {id};
      callers := callers - {id};
      NextConserves(middle, DropInflight(id));
    }
  }
}
