/**
 Refreshing the L1-fee cache: a bounded retry loop under a lock that reads the canonical head, loads
 that head's exact state, reads the head again, and publishes. Heads may move between any two reads
 and may return to an earlier hash; every read and every load may fail.
 */
module L1FeeCache {
  import opened MachineInts

  type Hash = nat

  /** A block hash determines its header, and the fee inputs stored in its state. */
  datatype World = World(timestamp: Hash -> U64, number: Hash -> U64, oracle: Hash -> nat)

  datatype Snapshot = Snapshot(headHash: Hash, timestamp: U64, number: U64, l1BlockInfo: nat)

  function SnapshotOf(world: World, h: Hash): Snapshot {
    Snapshot(h, world.timestamp(h), world.number(h), world.oracle(h))
  }

  datatype LoadStage = ExactStateOpen | OracleAccountRead | OracleAccountNotFound | OracleStorageRead

  datatype FeeError =
    | LatestHeaderRead
    | LatestHeaderNotFound
    | LoadFailed(stage: LoadStage, head: Hash)
    | RefreshHeadMoved(attempts: nat, target: Hash, latest: Hash)

  datatype Cache = Ready(snapshot: Snapshot) | Unavailable(error: FeeError) | Disabled

  const MAX_ATTEMPTS: nat := 3

  datatype HeadRead = Found(hash: Hash) | ReadFailed | NotFound

  /** What one step of a refresh observes of the provider. */
  datatype Observation = Nothing | Head(read: HeadRead) | Loaded(failure: Option<LoadStage>)

  /** The program counter of a refresh that holds the lock. */
  datatype Pc =
    | Entered
    | ReadTarget(attempt: nat)
    | CheckCache(attempt: nat, target: Hash)
    | Load(attempt: nat, target: Hash)
    | Verify(attempt: nat, target: Hash, loaded: Result<Snapshot, FeeError>)
    | Publish(result: Result<Snapshot, FeeError>)
    | Done(available: bool)

  /** One step of `refresh_l1_fee_cache_from_latest` and `publish_l1_fee_refresh`. */
  function Advance(world: World, cache: Cache, pc: Pc, seen: Observation): (Pc, Cache) {
    match pc
    case Entered => (if cache.Disabled? then Done(true) else ReadTarget(1), cache)
    case ReadTarget(n) =>
      (match seen
       case Head(Found(h)) => CheckCache(n, h)
       case Head(NotFound) => Publish(Err(LatestHeaderNotFound))
       case _ => Publish(Err(LatestHeaderRead)), cache)
    case CheckCache(n, t) =>
      (if cache.Ready? && cache.snapshot.headHash == t then Done(true) else Load(n, t), cache)
    case Load(n, t) =>
      (match seen
       case Loaded(Some(stage)) => Verify(n, t, Err(LoadFailed(stage, t)))
       case _ => Verify(n, t, Ok(SnapshotOf(world, t))), cache)
    case Verify(n, t, loaded) =>
      (match seen
       case Head(Found(h)) =>
         if h == t then Publish(loaded)
         else if n == MAX_ATTEMPTS then Publish(Err(RefreshHeadMoved(MAX_ATTEMPTS, t, h)))
         else ReadTarget(n + 1)
       case Head(NotFound) => Publish(Err(LatestHeaderNotFound))
       case _ => Publish(Err(LatestHeaderRead)), cache)
    case Publish(Ok(snapshot)) => (Done(true), Ready(snapshot))
    case Publish(Err(error)) => (Done(false), Unavailable(error))
    case Done(_) => (pc, cache)
  }

  predicate ValidPc(pc: Pc) {
    match pc
    case ReadTarget(n) => 1 <= n <= MAX_ATTEMPTS
    case CheckCache(n, _) => 1 <= n <= MAX_ATTEMPTS
    case Load(n, _) => 1 <= n <= MAX_ATTEMPTS
    case Verify(n, _, _) => 1 <= n <= MAX_ATTEMPTS
    case _ => true
  }

  /** Steps left at most. */
  function Rank(pc: Pc): nat
    requires ValidPc(pc)
  {
    match pc
    case Entered => 14
    case ReadTarget(n) => 4 * (MAX_ATTEMPTS - n) + 5
    case CheckCache(n, _) => 4 * (MAX_ATTEMPTS - n) + 4
    case Load(n, _) => 4 * (MAX_ATTEMPTS - n) + 3
    case Verify(n, _, _) => 4 * (MAX_ATTEMPTS - n) + 2
    case Publish(_) => 1
    case Done(_) => 0
  }

  /** Every step makes progress, so a refresh ends within three attempts and fourteen steps, whatever it reads. */
  lemma AdvanceTerminates(world: World, cache: Cache, pc: Pc, seen: Observation)
    requires ValidPc(pc)
    ensures var next := Advance(world, cache, pc, seen).0;
            ValidPc(next) && (!pc.Done? ==> Rank(next) < Rank(pc))
  {
  }

  function Follow(world: World, cache: Cache, pc: Pc, trace: seq<Observation>): (Pc, Cache) {
    if trace == [] then (pc, cache)
    else
      var (pc', cache') := Follow(world, cache, pc, trace[..|trace| - 1]);
      Advance(world, cache', pc', trace[|trace| - 1])
  }

  lemma FollowSnoc(world: World, cache: Cache, pc: Pc, trace: seq<Observation>, seen: Observation)
    ensures Follow(world, cache, pc, trace + [seen])
            == Advance(world, Follow(world, cache, pc, trace).1, Follow(world, cache, pc, trace).0, seen)
  {
    assert (trace + [seen])[..|trace + [seen]| - 1] == trace;
  }

  // ----- What a refresh must conclude from what it reads --------------------------------------------------------

  /** The head reads of a refresh in order: `sights[2 * i]` is the target of attempt `i`, the next verifies it. */
  predicate Moved(sights: seq<HeadRead>, i: nat) {
    && 2 * i + 1 < |sights| && sights[2 * i].Found? && sights[2 * i + 1].Found?
    && sights[2 * i].hash != sights[2 * i + 1].hash
  }

  predicate AllMoved(sights: seq<HeadRead>, n: nat) { forall i :: 0 <= i < n ==> Moved(sights, i) }

  function FailedRead(read: HeadRead): FeeError {
    if read.NotFound? then LatestHeaderNotFound else LatestHeaderRead
  }

  function LoadOf(world: World, head: Hash, failure: Option<LoadStage>): Result<Snapshot, FeeError> {
    if failure.Some? then Err(LoadFailed(failure.value, head)) else Ok(SnapshotOf(world, head))
  }

  /**
   A refresh publishes after an attempt that saw no move, or the third one that did: the failure of its
   last read; or the move; or its own last load, whatever the earlier ones gave.
   */
  predicate Concludes(world: World, sights: seq<HeadRead>, loads: seq<Option<LoadStage>>,
                      result: Result<Snapshot, FeeError>)
  {
    && 0 < |sights| <= 6
    && var (n, last) := (|sights| / 2, sights[|sights| - 1]);
       if |sights| % 2 == 1 then
         !last.Found? && AllMoved(sights, n) && |loads| == n && result == Err(FailedRead(last))
       else
         var target := sights[|sights| - 2];
         && target.Found? && AllMoved(sights, n - 1) && |loads| == n
         && if !last.Found? then result == Err(FailedRead(last))
            else if last.hash == target.hash then result == LoadOf(world, target.hash, loads[n - 1])
            else n == 3 && result == Err(RefreshHeadMoved(3, target.hash, last.hash))
  }

  /** No attempt read the head that the cache already held. */
  predicate Uncached(cache: Cache, sights: seq<HeadRead>) {
    forall i :: 0 <= i < |sights| && i % 2 == 0 && sights[i].Found? && cache.Ready? ==>
                  cache.snapshot.headHash != sights[i].hash
  }

  /** The last attempt read the head that the cache already held, and the earlier ones saw a move. */
  predicate FindsCached(cache: Cache, sights: seq<HeadRead>, loads: seq<Option<LoadStage>>) {
    && |sights| % 2 == 1 && |sights| <= 5 && |loads| == |sights| / 2 && AllMoved(sights, |sights| / 2)
    && Uncached(cache, sights[..|sights| - 1])
    && cache.Ready? && sights[|sights| - 1] == Found(cache.snapshot.headHash)
  }

  function ResultOf(cache: Cache): Result<Snapshot, FeeError>
    requires !cache.Disabled?
  {
    if cache.Ready? then Ok(cache.snapshot) else Err(cache.error)
  }

  /** How a refresh that made these reads and loads turns the cache `before` into `after`, and what it returns. */
  predicate Finishes(world: World, before: Cache, after: Cache, available: bool, sights: seq<HeadRead>,
                     loads: seq<Option<LoadStage>>)
  {
    if before.Disabled? then available && after == before && sights == [] && loads == []
    else if FindsCached(before, sights, loads) then available && after == before
    else
      && Uncached(before, sights) && !after.Disabled? && available == after.Ready?
      && Concludes(world, sights, loads, ResultOf(after))
  }

  /**
   Heads that move are retried: if every read finds a head and not all three attempts see it move, the
   cache ends with the first head that stayed, or with the failure to load that head; no load of a
   head that moved away shows.
   */
  lemma SteadyHeadIsPublished(world: World, sights: seq<HeadRead>, loads: seq<Option<LoadStage>>,
                              result: Result<Snapshot, FeeError>)
    requires Concludes(world, sights, loads, result) && (forall r <- sights :: r.Found?) && !AllMoved(sights, 3)
    ensures var n := |sights| / 2;
            && |sights| == 2 * n && 1 <= n <= 3 && |loads| == n && AllMoved(sights, n - 1)
            && sights[2 * n - 1] == sights[2 * n - 2]
            && result == LoadOf(world, sights[2 * n - 1].hash, loads[n - 1])
  {
    var n, last := |sights| / 2, sights[|sights| - 1];
    assert last in sights;
    if sights[|sights| - 2] != last {
      assert Moved(sights, n - 1);
      assert AllMoved(sights, 3);
    }
  }

  lemma MovedStays(made: seq<HeadRead>, more: seq<HeadRead>, n: nat)
    requires AllMoved(made, n)
    ensures AllMoved(made + more, n)
  {
    forall i | 0 <= i < n ensures Moved(made + more, i) { assert Moved(made, i); }
  }

  /** An attempt whose target cannot be read ends the refresh. */
  lemma TargetFailed(world: World, cache: Cache, made: seq<HeadRead>, loads: seq<Option<LoadStage>>, read: HeadRead)
    requires !cache.Disabled? && |made| % 2 == 0 && |made| <= 4 && |loads| == |made| / 2
    requires AllMoved(made, |made| / 2) && Uncached(cache, made) && !read.Found?
    ensures Finishes(world, cache, Unavailable(FailedRead(read)), false, made + [read], loads)
  {
    MovedStays(made, [read], |made| / 2);
  }

  lemma CachedFound(world: World, cache: Cache, made: seq<HeadRead>, loads: seq<Option<LoadStage>>, target: Hash)
    requires cache.Ready? && |made| % 2 == 0 && |made| <= 4 && |loads| == |made| / 2
    requires AllMoved(made, |made| / 2) && Uncached(cache, made) && cache.snapshot.headHash == target
    ensures Finishes(world, cache, cache, true, made + [Found(target)], loads)
  {
    MovedStays(made, [Found(target)], |made| / 2);
    assert (made + [Found(target)])[..|made|] == made;
  }

  /** An attempt that sees the head move leaves one more move behind. */
  lemma HeadMoved(cache: Cache, made: seq<HeadRead>, target: Hash, verified: HeadRead)
    requires |made| % 2 == 0 && AllMoved(made, |made| / 2) && Uncached(cache, made)
    requires cache.Ready? ==> cache.snapshot.headHash != target
    requires verified.Found? && verified.hash != target
    ensures var sights := made + [Found(target)] + [verified];
            AllMoved(sights, |made| / 2 + 1) && Uncached(cache, sights)
  {
    var sights := made + [Found(target)] + [verified];
    MovedStays(made, [Found(target)], |made| / 2);
    MovedStays(made + [Found(target)], [verified], |made| / 2);
    assert Moved(sights, |made| / 2);
  }

  /** What the second read of an attempt makes of it, if the head stayed or no attempt is left. */
  function VerifiedResult(target: Hash, loaded: Result<Snapshot, FeeError>, verified: HeadRead)
    : Result<Snapshot, FeeError>
  {
    if !verified.Found? then Err(FailedRead(verified))
    else if verified.hash == target then loaded
    else Err(RefreshHeadMoved(3, target, verified.hash))
  }

  lemma HeadVerified(world: World, cache: Cache, made: seq<HeadRead>, loads: seq<Option<LoadStage>>, target: Hash,
                     failure: Option<LoadStage>, verified: HeadRead, after: Cache)
    requires !cache.Disabled? && |made| % 2 == 0 && |made| <= 4 && |loads| == |made| / 2
    requires AllMoved(made, |made| / 2) && Uncached(cache, made)
    requires cache.Ready? ==> cache.snapshot.headHash != target
    requires verified.Found? && verified.hash != target ==> |made| == 4
    requires !after.Disabled? && ResultOf(after) == VerifiedResult(target, LoadOf(world, target, failure), verified)
    ensures Finishes(world, cache, after, after.Ready?, made + [Found(target)] + [verified], loads + [failure])
  {
    MovedStays(made, [Found(target)], |made| / 2);
    MovedStays(made + [Found(target)], [verified], |made| / 2);
  }

  // ----- The refresh itself ----------------------------------------------------------------------------------

  /** The provider: every call may return anything it can return at all. */
  method LatestHeader() returns (r: HeadRead) {
    r := *;
  }

  method LoadForHead(world: World, h: Hash) returns (failure: Option<LoadStage>, r: Result<Snapshot, FeeError>)
    ensures r == if failure.Some? then Err(LoadFailed(failure.value, h)) else Ok(SnapshotOf(world, h))
  {
    failure := *;
    r := if failure.Some? then Err(LoadFailed(failure.value, h)) else Ok(SnapshotOf(world, h));
  }

  class FeeCacheCell {
    var cache: Cache

    method PublishRefresh(result: Result<Snapshot, FeeError>) returns (available: bool)
      modifies this
      ensures cache == (if result.Ok? then Ready(result.value) else Unavailable(result.error))
      ensures available == result.Ok?
    {
      match result
      case Ok(snapshot) => cache := Ready(snapshot); return true;
      case Err(error) => cache := Unavailable(error); return false;
    }

    /** One turn of the loop; `None` when the head moved and another attempt remains. */
    method Attempt(world: World, attempt: nat, ghost made: seq<HeadRead>, ghost loaded': seq<Option<LoadStage>>)
      returns (outcome: Option<bool>, ghost trace: seq<Observation>, ghost sights: seq<HeadRead>,
               ghost loads: seq<Option<LoadStage>>)
      requires 1 <= attempt <= MAX_ATTEMPTS && !cache.Disabled?
      requires |made| == 2 * (attempt - 1) && |loaded'| == attempt - 1
      requires AllMoved(made, attempt - 1) && Uncached(cache, made)
      modifies this
      ensures outcome.None? ==> attempt < MAX_ATTEMPTS && cache == old(cache)
      ensures outcome.None? ==> && |sights| == 2 * attempt && |loads| == attempt
                                && AllMoved(sights, attempt) && Uncached(cache, sights)
      ensures outcome.Some? ==> Finishes(world, old(cache), cache, outcome.value, sights, loads)
      ensures Follow(world, old(cache), ReadTarget(attempt), trace)
              == (if outcome.Some? then Done(outcome.value) else ReadTarget(attempt + 1), cache)
    {
      ghost var start := ReadTarget(attempt);
      var read := LatestHeader();
      trace, sights, loads := [] + [Head(read)], made + [read], loaded';
      FollowSnoc(world, cache, start, [], Head(read));
      assert Follow(world, cache, start, trace) == Advance(world, cache, start, Head(read));
      if !read.Found? {
        FollowSnoc(world, cache, start, trace, Nothing);
        TargetFailed(world, cache, made, loads, read);
        var failed := PublishRefresh(Err(if read.NotFound? then LatestHeaderNotFound else LatestHeaderRead));
        return Some(failed), trace + [Nothing], sights, loads;
      }
      var target := read.hash;
      FollowSnoc(world, cache, start, trace, Nothing);
      trace := trace + [Nothing];
      if cache.Ready? && cache.snapshot.headHash == target {
        CachedFound(world, cache, made, loads, target);
        return Some(true), trace, sights, loads;
      }
      assert Follow(world, cache, start, trace) == (Load(attempt, target), cache);
      var failure, loaded := LoadForHead(world, target);
      FollowSnoc(world, cache, start, trace, Loaded(failure));
      trace, loads := trace + [Loaded(failure)], loads + [failure];
      assert Follow(world, cache, start, trace) == (Verify(attempt, target, loaded), cache);
      ghost var before := cache;
      ghost var more, verified;
      outcome, more, verified := VerifyTarget(world, attempt, target, failure, loaded, made, loaded');
      FollowAppend(world, before, start, trace, more);
      return outcome, trace + more, sights + [verified], loads;
    }

    /** The rest of an attempt: the head is read again, and the load is published if it has not moved. */
    method VerifyTarget(world: World, attempt: nat, target: Hash, ghost failure: Option<LoadStage>,
                        loaded: Result<Snapshot, FeeError>, ghost made: seq<HeadRead>,
                        ghost loads: seq<Option<LoadStage>>)
      returns (outcome: Option<bool>, ghost trace: seq<Observation>, ghost verified: HeadRead)
      requires 1 <= attempt <= MAX_ATTEMPTS && !cache.Disabled? && loaded == LoadOf(world, target, failure)
      requires cache.Ready? ==> cache.snapshot.headHash != target
      requires |made| == 2 * (attempt - 1) && |loads| == attempt - 1
      requires AllMoved(made, attempt - 1) && Uncached(cache, made)
      modifies this
      ensures var sights := made + [Found(target)] + [verified];
              if outcome.Some? then Finishes(world, old(cache), cache, outcome.value, sights, loads + [failure])
              else attempt < MAX_ATTEMPTS && cache == old(cache) && AllMoved(sights, attempt) && Uncached(cache, sights)
      ensures Follow(world, old(cache), Verify(attempt, target, loaded), trace)
              == (if outcome.Some? then Done(outcome.value) else ReadTarget(attempt + 1), cache)
    {
      ghost var before, start := cache, Verify(attempt, target, loaded);
      var read := LatestHeader();
      verified := read;
      trace := [] + [Head(read)];
      FollowSnoc(world, cache, start, [], Head(read));
      if read.Found? && read.hash != target && attempt < MAX_ATTEMPTS {
        HeadMoved(before, made, target, read);
        return None, trace, verified;
      }
      var result :=
        if read.NotFound? then Err(LatestHeaderNotFound)
        else if read.ReadFailed? then Err(LatestHeaderRead)
        else if read.hash != target then Err(RefreshHeadMoved(MAX_ATTEMPTS, target, read.hash))
        else loaded;
      FollowSnoc(world, cache, start, trace, Nothing);
      assert result == VerifiedResult(target, loaded, read);
      var available := PublishRefresh(result);
      HeadVerified(world, before, made, loads, target, failure, read, cache);
      return Some(available), trace + [Nothing], verified;
    }

    /** `refresh_l1_fee_cache_from_latest`, under the lock: what it reads and loads decides what it leaves. */
    method Refresh(world: World)
      returns (available: bool, ghost trace: seq<Observation>, ghost sights: seq<HeadRead>,
               ghost loads: seq<Option<LoadStage>>)
      modifies this
      ensures Finishes(world, old(cache), cache, available, sights, loads)
      ensures Follow(world, old(cache), Entered, trace) == (Done(available), cache)
    {
      ghost var before := cache;
      trace, sights, loads := [] + [Nothing], [], [];
      FollowSnoc(world, before, Entered, [], Nothing);
      if cache.Disabled? { return true, trace, sights, loads; }
      var outcome: Option<bool> := None;
      var attempt := 1;
      while outcome.None?
        invariant outcome.None? ==> attempt <= MAX_ATTEMPTS && cache == before
        invariant 1 <= attempt
        invariant outcome.None? ==> |sights| == 2 * (attempt - 1) && |loads| == attempt - 1
        invariant outcome.None? ==> AllMoved(sights, attempt - 1) && Uncached(cache, sights)
        invariant outcome.Some? ==> Finishes(world, before, cache, outcome.value, sights, loads)
        invariant Follow(world, before, Entered, trace)
                  == (if outcome.Some? then Done(outcome.value) else ReadTarget(attempt), cache)
        decreases outcome.None?, MAX_ATTEMPTS - attempt
      {
        ghost var more;
        outcome, more, sights, loads := Attempt(world, attempt, sights, loads);
        FollowAppend(world, before, Entered, trace, more);
        trace := trace + more;
        attempt := attempt + 1;
      }
      available := outcome.value;
    }
  }

  lemma {:induction false} FollowAppend(world: World, cache: Cache, pc: Pc, a: seq<Observation>, b: seq<Observation>)
    ensures var (pc', cache') := Follow(world, cache, pc, a);
            Follow(world, cache, pc, a + b) == Follow(world, cache', pc', b)
  {
    if b == [] {
      assert a + b == a;
    } else {
      var n := |b| - 1;
      FollowAppend(world, cache, pc, a, b[..n]);
      assert (a + b)[..|a + b| - 1] == a + b[..n];
    }
  }

  // ----- Any number of concurrent refreshes --------------------------------------------------------------------

  /** The head reads of a refresh, the times at which they were made, and the outcomes of its loads. */
  datatype Log = Log(sights: seq<HeadRead>, times: seq<nat>, loads: seq<Option<LoadStage>>)

  /** A refresh that holds the lock since time `start`, with the times of its latest load and head read. */
  datatype Holder = Holder(id: nat, pc: Pc, start: nat, loadAt: nat, readAt: nat, log: Log)

  /** `value` was written at time `at` on the strength of a head read at `readAt` and a load at `loadAt`. */
  datatype Publication = Publication(value: Cache, loadAt: nat, readAt: nat, at: nat, start: nat, log: Log)

  datatype Finished = Finished(id: nat, available: bool, start: nat, readAt: nat, at: nat)

  /** `heads[t]` and `caches[t]` are the canonical head and the cache at time `t`; the last ones are current. */
  datatype Sys = Sys(
    heads: seq<Hash>, caches: seq<Cache>, waiting: set<nat>, holder: Option<Holder>,
    publications: seq<Publication>, finished: seq<Finished>)

  datatype Fate = Works | Fails | Missing

  datatype Action =
    | MoveHead(hash: Hash)
    | Request(id: nat)
    | Acquire(id: nat)
    | Step(fate: Fate, failure: Option<LoadStage>)

  function Observe(pc: Pc, head: Hash, fate: Fate, failure: Option<LoadStage>): Observation {
    match pc
    case ReadTarget(_) => Head(if fate.Works? then Found(head) else if fate.Missing? then NotFound else ReadFailed)
    case Verify(_, _, _) => Head(if fate.Works? then Found(head) else if fate.Missing? then NotFound else ReadFailed)
    case Load(_, _) => Loaded(failure)
    case _ => Nothing
  }

  predicate Started(s: Sys) { |s.heads| > 0 && |s.caches| == |s.heads| }

  function Now(s: Sys): nat
    requires Started(s)
  {
    |s.heads| - 1
  }

  function HeadOf(s: Sys): Hash
    requires Started(s)
  {
    s.heads[|s.heads| - 1]
  }

  function CacheOf(s: Sys): Cache
    requires Started(s)
  {
    s.caches[|s.caches| - 1]
  }

  /** Time passes with every action. */
  function Pass(s: Sys, head: Hash, cache: Cache): Sys {
    s.(heads := s.heads + [head], caches := s.caches + [cache])
  }

  function Extend(log: Log, now: nat, seen: Observation): Log {
    match seen
    case Head(read) => log.(sights := log.sights + [read], times := log.times + [now])
    case Loaded(failure) => log.(loads := log.loads + [failure])
    case Nothing => log
  }

  /** The next state of the holder: reads and loads are stamped with the time of the state they see. */
  function StepHolder(h: Holder, pc: Pc, now: nat, seen: Observation): Holder {
    h.(pc := pc,
       log := Extend(h.log, now, seen),
       loadAt := if h.pc.Load? then now else h.loadAt,
       readAt := if h.pc.ReadTarget? || h.pc.Verify? then now else h.readAt)
  }

  /** The holder returns; a return from `Publish` has just written the cache. */
  function Leave(s: Sys, h: Holder, available: bool, cache: Cache): Sys
    requires Started(s)
  {
    var f := Finished(h.id, available, h.start, h.readAt, Now(s));
    var p := Publication(cache, h.loadAt, h.readAt, Now(s), h.start, h.log);
    var ps := if h.pc.Publish? then s.publications + [p] else s.publications;
    s.(holder := None, publications := ps, finished := s.finished + [f])
  }

  function Act(world: World, s: Sys, a: Action): Sys
    requires Started(s)
  {
    match a
    case MoveHead(h) => Pass(s, h, CacheOf(s))
    case Request(id) => Pass(s, HeadOf(s), CacheOf(s)).(waiting := s.waiting + {id})
    case Acquire(id) =>
      if s.holder.Some? || id !in s.waiting then s
      else Pass(s, HeadOf(s), CacheOf(s)).(
             waiting := s.waiting - {id},
             holder := Some(Holder(id, Entered, Now(s), Now(s), Now(s), Log([], [], []))))
    case Step(fate, failure) =>
      if s.holder.None? then s
      else
        var h := s.holder.value;
        var seen := Observe(h.pc, HeadOf(s), fate, failure);
        var (pc, cache) := Advance(world, CacheOf(s), h.pc, seen);
        var s' := Pass(s, HeadOf(s), cache);
        if pc.Done? then Leave(s', h, pc.available, cache)
        else s'.(holder := Some(StepHolder(h, pc, Now(s), seen)))
  }

  /** The lock is taken by one waiting refresh at a time, each request once, and only while it is free. */
  lemma LockIsExclusive(world: World, s: Sys, a: Action)
    requires Started(s)
    ensures var t := Act(world, s, a);
            && (s.holder.None? && t.holder.Some? ==>
                  && a.Acquire? && a.id in s.waiting && t.waiting == s.waiting - {a.id}
                  && t.holder.value.id == a.id && t.holder.value.start == Now(s) && t.holder.value.pc == Entered)
            && (s.holder.Some? ==> t.holder.None? || (t.holder.value.id == s.holder.value.id
                                                      && t.holder.value.start == s.holder.value.start))
            && (a.Acquire? && a.id in s.waiting && s.holder.None? ==> t.holder.Some?)
            && (a.Request? ==> t.waiting == s.waiting + {a.id} && t.holder == s.holder)
  {
  }

  // ----- What every reachable state satisfies -----------------------------------------------------------------------

  /**
   What a result rests on. A snapshot, or the failure to load one, is about a head that was still
   canonical in a head read made after the load; a moved head was seen to differ from its target.
   */
  predicate Grounded(world: World, s: Sys, result: Result<Snapshot, FeeError>, loadAt: nat, readAt: nat)
    requires readAt < |s.heads|
  {
    match result
    case Ok(snapshot) =>
      loadAt < readAt && s.heads[readAt] == snapshot.headHash && snapshot == SnapshotOf(world, snapshot.headHash)
    case Err(LoadFailed(_, head)) => loadAt < readAt && s.heads[readAt] == head
    case Err(RefreshHeadMoved(n, target, latest)) =>
      n == MAX_ATTEMPTS && target != latest && s.heads[readAt] == latest
    case Err(_) => true
  }

  predicate Justified(world: World, s: Sys, p: Publication) {
    && p.readAt < p.at < |s.heads| && |s.caches| == |s.heads|
    && s.caches[p.at] == p.value && !p.value.Disabled?
    && Grounded(world, s, if p.value.Ready? then Ok(p.value.snapshot) else Err(p.value.error), p.loadAt, p.readAt)
  }

  /** Each publication rests on a head read later than every earlier publication. */
  predicate InReadOrder(ps: seq<Publication>) {
    forall i, j :: 0 <= i < j < |ps| ==> ps[i].at <= ps[j].readAt
  }

  predicate CacheIsLast(s: Sys)
    requires Started(s)
  {
    CacheOf(s) == if s.publications == [] then s.caches[0] else s.publications[|s.publications| - 1].value
  }

  predicate GoodCache(world: World, c: Cache) {
    c.Ready? ==> c.snapshot == SnapshotOf(world, c.snapshot.headHash)
  }

  /** What the holder knows at its program counter. */
  predicate GoodHolder(world: World, s: Sys, h: Holder)
    requires Started(s)
  {
    && ValidPc(h.pc) && !h.pc.Done?
    && h.start <= h.readAt <= Now(s) && h.loadAt <= Now(s)
    && (!h.pc.Entered? ==> !CacheOf(s).Disabled?)
    && (forall p <- s.publications :: p.at <= h.start)
    && match h.pc
       case CheckCache(_, t) => s.heads[h.readAt] == t && h.readAt < Now(s)
       case Load(_, t) => s.heads[h.readAt] == t
       case Verify(_, t, loaded) =>
         h.loadAt < Now(s) && (if loaded.Ok? then loaded.value == SnapshotOf(world, t)
                               else loaded.error.LoadFailed? && loaded.error.head == t)
       case Publish(result) => h.readAt < Now(s) && Grounded(world, s, result, h.loadAt, h.readAt)
       case _ => true
  }

  /** A refresh that returned left the cache `Ready` for a head it read while holding the lock, or unavailable. */
  predicate GoodFinish(s: Sys, f: Finished) {
    && f.start <= f.readAt <= f.at < |s.heads| && |s.caches| == |s.heads|
    && (f.available ==> s.caches[f.at].Disabled?
                        || (s.caches[f.at].Ready? && s.caches[f.at].snapshot.headHash == s.heads[f.readAt]))
    && (!f.available ==> s.caches[f.at].Unavailable?)
  }

  ghost predicate Inv(world: World, s: Sys) {
    && Started(s)
    && (forall p <- s.publications :: Justified(world, s, p))
    && InReadOrder(s.publications) && CacheIsLast(s) && GoodCache(world, CacheOf(s))
    && (s.holder.Some? ==> GoodHolder(world, s, s.holder.value))
    && (forall f <- s.finished :: GoodFinish(s, f))
  }

  lemma PassKeeps(world: World, s: Sys, head: Hash)
    requires Inv(world, s)
    ensures Inv(world, Pass(s, head, CacheOf(s)))
  {
  }

  lemma ActKeeps(world: World, s: Sys, a: Action)
    requires Inv(world, s)
    ensures Inv(world, Act(world, s, a))
  {
    match a
    case MoveHead(h) => PassKeeps(world, s, h);
    case Request(_) => PassKeeps(world, s, HeadOf(s));
    case Acquire(_) => AcquireKeeps(world, s, a);
    case Step(_, _) => StepKeeps(world, s, a);
  }

  lemma AcquireKeeps(world: World, s: Sys, a: Action)
    requires Inv(world, s) && a.Acquire?
    ensures Inv(world, Act(world, s, a))
  {
    PassKeeps(world, s, HeadOf(s));
  }

  lemma AdvanceKeeps(world: World, s: Sys, a: Action)
    requires Inv(world, s) && a.Step? && s.holder.Some? && !s.holder.value.pc.Publish?
    requires var h := s.holder.value;
             !Advance(world, CacheOf(s), h.pc, Observe(h.pc, HeadOf(s), a.fate, a.failure)).0.Done?
    ensures Inv(world, Act(world, s, a))
  {
    var h := s.holder.value;
    var (pc, cache) := Advance(world, CacheOf(s), h.pc, Observe(h.pc, HeadOf(s), a.fate, a.failure));
    PassKeeps(world, s, HeadOf(s));
    HolderAdvances(world, s, h, a.fate, a.failure);
    assert cache == CacheOf(s);
    var seen := Observe(h.pc, HeadOf(s), a.fate, a.failure);
    assert Act(world, s, a) == Pass(s, HeadOf(s), CacheOf(s)).(holder := Some(StepHolder(h, pc, Now(s), seen)));
  }

  lemma StepKeeps(world: World, s: Sys, a: Action)
    requires Inv(world, s) && a.Step?
    ensures Inv(world, Act(world, s, a))
  {
    if s.holder.Some? {
      var h := s.holder.value;
      if h.pc.Publish? {
        PublishKeeps(world, s, a);
      } else if Advance(world, CacheOf(s), h.pc, Observe(h.pc, HeadOf(s), a.fate, a.failure)).0.Done? {
        ReturnKeeps(world, s, a);
      } else {
        AdvanceKeeps(world, s, a);
      }
    }
  }

  /** An early return: fee checking disabled, or the cache already holds the head just read. */
  lemma ReturnKeeps(world: World, s: Sys, a: Action)
    requires Inv(world, s) && a.Step? && s.holder.Some? && !s.holder.value.pc.Publish?
    requires var h := s.holder.value;
             Advance(world, CacheOf(s), h.pc, Observe(h.pc, HeadOf(s), a.fate, a.failure)).0.Done?
    ensures Inv(world, Act(world, s, a))
  {
    var h, t := s.holder.value, Pass(s, HeadOf(s), CacheOf(s));
    PassKeeps(world, s, HeadOf(s));
    assert h.pc.Entered? || h.pc.CheckCache?;
    var f := Finished(h.id, true, h.start, h.readAt, Now(t));
    assert GoodFinish(t, f);
    LeaveKeeps(world, t, f);
    assert Act(world, s, a) == t.(holder := None, finished := t.finished + [f]);
  }

  lemma LeaveKeeps(world: World, s: Sys, f: Finished)
    requires Inv(world, s) && GoodFinish(s, f)
    ensures Inv(world, s.(holder := None, finished := s.finished + [f]))
  {
  }

  lemma HolderAdvances(world: World, s: Sys, h: Holder, fate: Fate, failure: Option<LoadStage>)
    requires Started(s) && GoodHolder(world, s, h) && GoodCache(world, CacheOf(s)) && !h.pc.Publish?
    requires !Advance(world, CacheOf(s), h.pc, Observe(h.pc, HeadOf(s), fate, failure)).0.Done?
    ensures var pc := Advance(world, CacheOf(s), h.pc, Observe(h.pc, HeadOf(s), fate, failure)).0;
            GoodHolder(world, Pass(s, HeadOf(s), CacheOf(s)),
                       StepHolder(h, pc, Now(s), Observe(h.pc, HeadOf(s), fate, failure)))
  {
    AdvanceTerminates(world, CacheOf(s), h.pc, Observe(h.pc, HeadOf(s), fate, failure));
  }

  lemma HistoryKeeps(world: World, s: Sys, head: Hash, cache: Cache)
    requires Inv(world, s)
    ensures forall p <- s.publications :: Justified(world, Pass(s, head, cache), p)
    ensures forall f <- s.finished :: GoodFinish(Pass(s, head, cache), f)
  {
  }

  lemma ReadOrderSnoc(ps: seq<Publication>, p: Publication)
    requires InReadOrder(ps) && forall q <- ps :: q.at <= p.readAt
    ensures InReadOrder(ps + [p])
  {
  }

  lemma AddPublication(world: World, s: Sys, head: Hash, p: Publication)
    requires Inv(world, s) && GoodCache(world, p.value) && p.at == |s.heads|
    requires Justified(world, Pass(s, head, p.value), p) && (forall q <- s.publications :: q.at <= p.readAt)
    ensures Inv(world, Pass(s, head, p.value).(holder := None, publications := s.publications + [p]))
  {
    HistoryKeeps(world, s, head, p.value);
    ReadOrderSnoc(s.publications, p);
  }

  lemma PublicationIsJustified(world: World, s: Sys, h: Holder)
    requires Inv(world, s) && s.holder == Some(h) && h.pc.Publish?
    ensures var (pc, cache) := Advance(world, CacheOf(s), h.pc, Nothing);
            var t := Pass(s, HeadOf(s), cache);
            && Justified(world, t, Publication(cache, h.loadAt, h.readAt, Now(t), h.start, h.log))
            && GoodCache(world, cache)
            && GoodFinish(t, Finished(h.id, pc.available, h.start, h.readAt, Now(t)))
  {
  }

  lemma PublishKeeps(world: World, s: Sys, a: Action)
    requires Inv(world, s) && a.Step? && s.holder.Some? && s.holder.value.pc.Publish?
    ensures Inv(world, Act(world, s, a))
  {
    var h := s.holder.value;
    var (pc, cache) := Advance(world, CacheOf(s), h.pc, Nothing);
    var t := Pass(s, HeadOf(s), cache);
    var p := Publication(cache, h.loadAt, h.readAt, Now(t), h.start, h.log);
    PublicationIsJustified(world, s, h);
    AddPublication(world, s, HeadOf(s), p);
    LeaveKeeps(world, t.(holder := None, publications := s.publications + [p]),
               Finished(h.id, pc.available, h.start, h.readAt, Now(t)));
  }

  function Run(world: World, s: Sys, actions: seq<Action>): Sys
    requires Started(s)
    ensures Started(Run(world, s, actions))
    decreases |actions|
  {
    if actions == [] then s else Act(world, Run(world, s, actions[..|actions| - 1]), actions[|actions| - 1])
  }

  /** A validator right after construction: the hydrated snapshot, or fee checking disabled. */
  predicate Fresh(world: World, s: Sys) {
    && |s.heads| == 1 && |s.caches| == 1 && s.waiting == {} && s.holder == None
    && s.publications == [] && s.finished == []
    && (s.caches[0].Disabled? || (s.caches[0].Ready? && GoodCache(world, s.caches[0])))
  }

  /** Under every interleaving of refreshes and head moves the invariant holds. */
  lemma {:induction false} EveryRunIsGood(world: World, s: Sys, actions: seq<Action>)
    requires Fresh(world, s)
    ensures Inv(world, Run(world, s, actions))
    decreases |actions|
  {
    if actions != [] {
      EveryRunIsGood(world, s, actions[..|actions| - 1]);
      ActKeeps(world, Run(world, s, actions[..|actions| - 1]), actions[|actions| - 1]);
    }
  }

  /**
   Every publication of every run, the first one included: a published `Ready(h)`, and a published
   failure to load `h`, saw `h` canonical in a head read made after the attempt to load `h`'s exact
   state; so no result about a head that had moved away is ever published, except that it moved.
   */
  lemma PublicationIsVerified(world: World, s: Sys, actions: seq<Action>, i: nat)
    requires Fresh(world, s) && i < |Run(world, s, actions).publications|
    ensures var t := Run(world, s, actions);
            var p := t.publications[i];
            && p.readAt < p.at < |t.heads| && !p.value.Disabled?
            && (p.value.Ready? ==> p.loadAt < p.readAt && t.heads[p.readAt] == p.value.snapshot.headHash
                                   && p.value.snapshot == SnapshotOf(world, p.value.snapshot.headHash))
            && (p.value.Unavailable? ==>
                  && (p.value.error.LoadFailed? ==> p.loadAt < p.readAt && t.heads[p.readAt] == p.value.error.head)
                  && (p.value.error.RefreshHeadMoved? ==> && t.heads[p.readAt] == p.value.error.latest
                                                          && p.value.error.target != p.value.error.latest))
  {
    EveryRunIsGood(world, s, actions);
    assert Run(world, s, actions).publications[i] in Run(world, s, actions).publications;
  }

  /** Publications happen in the order of their head reads: none rests on a read older than one it replaces. */
  lemma PublicationsInReadOrder(world: World, s: Sys, actions: seq<Action>, i: nat, j: nat)
    requires Fresh(world, s) && i < j < |Run(world, s, actions).publications|
    ensures var ps := Run(world, s, actions).publications;
            ps[i].readAt < ps[i].at <= ps[j].readAt < ps[j].at
  {
    EveryRunIsGood(world, s, actions);
    var ps := Run(world, s, actions).publications;
    assert ps[i] in ps && ps[j] in ps;
  }

  function Steps(actions: seq<Action>): nat {
    if actions == [] then 0
    else Steps(actions[..|actions| - 1]) + if actions[|actions| - 1].Step? then 1 else 0
  }

  predicate Completed(s: Sys, h: Holder) {
    exists f <- s.finished :: f.id == h.id && f.start == h.start
  }

  lemma {:induction false} RefreshEndsInTime(world: World, s: Sys, h: Holder, actions: seq<Action>)
    requires Started(s) && s.holder == Some(h) && ValidPc(h.pc) && !h.pc.Done?
    ensures var t := Run(world, s, actions);
            || Completed(t, h)
            || (&& t.holder.Some? && t.holder.value.id == h.id && t.holder.value.start == h.start
                && ValidPc(t.holder.value.pc) && !t.holder.value.pc.Done?
                && Rank(t.holder.value.pc) + Steps(actions) <= Rank(h.pc))
    decreases |actions|
  {
    if actions != [] {
      var t, a := Run(world, s, actions[..|actions| - 1]), actions[|actions| - 1];
      RefreshEndsInTime(world, s, h, actions[..|actions| - 1]);
      if Completed(t, h) {
        var f :| f in t.finished && f.id == h.id && f.start == h.start;
        assert f in Act(world, t, a).finished;
      } else {
        HolderStep(world, t, a);
      }
    }
  }

  lemma HolderStep(world: World, s: Sys, a: Action)
    requires Started(s) && s.holder.Some? && ValidPc(s.holder.value.pc) && !s.holder.value.pc.Done?
    ensures var (h, t) := (s.holder.value, Act(world, s, a));
            || Completed(t, h)
            || (&& t.holder.Some? && t.holder.value.id == h.id && t.holder.value.start == h.start
                && ValidPc(t.holder.value.pc) && !t.holder.value.pc.Done?
                && Rank(t.holder.value.pc) + (if a.Step? then 1 else 0) <= Rank(h.pc))
  {
    if a.Step? {
      var h := s.holder.value;
      var seen := Observe(h.pc, HeadOf(s), a.fate, a.failure);
      AdvanceTerminates(world, CacheOf(s), h.pc, seen);
      var pc := Advance(world, CacheOf(s), h.pc, seen).0;
      if pc.Done? {
        var f := Finished(h.id, pc.available, h.start, h.readAt, Now(s) + 1);
        assert f in Act(world, s, a).finished;
      }
    }
  }

  /** A refresh that holds the lock is done after at most fourteen of its own steps, whatever else happens. */
  lemma FourteenStepsSuffice(world: World, s: Sys, h: Holder, actions: seq<Action>)
    requires Started(s) && s.holder == Some(h) && h.pc == Entered && Steps(actions) >= 14
    ensures Completed(Run(world, s, actions), h)
  {
    RefreshEndsInTime(world, s, h, actions);
  }

  // ----- The cache between two publications ---------------------------------------------------------------------

  /** The value in force at time `t`: the last publication up to then, or the initial cache. */
  function InForce(initial: Cache, ps: seq<Publication>, t: nat): Cache {
    if ps == [] then initial
    else if ps[|ps| - 1].at <= t then ps[|ps| - 1].value
    else InForce(initial, ps[..|ps| - 1], t)
  }

  /** The cache changes only by publications. */
  predicate Held(s: Sys)
    requires Started(s)
  {
    && (forall p <- s.publications :: p.at < |s.caches|)
    && (forall t :: 0 <= t < |s.caches| ==> s.caches[t] == InForce(s.caches[0], s.publications, t))
  }

  lemma PassHolds(s: Sys, t: Sys)
    requires Started(s) && Started(t) && Held(s)
    requires t.caches == s.caches + [CacheOf(s)] && t.publications == s.publications
    ensures Held(t)
  {
    var n := |s.publications|;
    if n > 0 { assert s.publications[n - 1] in s.publications; }
  }

  lemma PublicationHolds(s: Sys, t: Sys, p: Publication)
    requires Started(s) && Started(t) && Held(s) && p.at == |s.caches|
    requires t.caches == s.caches + [p.value] && t.publications == s.publications + [p]
    ensures Held(t)
  {
    assert t.publications[..|t.publications| - 1] == s.publications;
  }

  function PublicationBy(h: Holder, value: Cache, at: nat): Publication {
    Publication(value, h.loadAt, h.readAt, at, h.start, h.log)
  }

  /** A step of the holder publishes, or leaves the cache as it was. */
  lemma StepPublishesOrPasses(world: World, s: Sys, a: Action)
    requires Started(s) && a.Step? && s.holder.Some?
    ensures var (t, h) := (Act(world, s, a), s.holder.value);
            && t.caches == s.caches + [CacheOf(t)]
            && (!h.pc.Publish? ==> CacheOf(t) == CacheOf(s) && t.publications == s.publications)
            && (h.pc.Publish? ==>
                  t.publications == s.publications + [PublicationBy(h, CacheOf(t), Now(s) + 1)])
  {
  }

  lemma StepHolds(world: World, s: Sys, a: Action)
    requires Started(s) && Held(s) && a.Step? && s.holder.Some?
    ensures Held(Act(world, s, a))
  {
    var t, h := Act(world, s, a), s.holder.value;
    StepPublishesOrPasses(world, s, a);
    if h.pc.Publish? {
      PublicationHolds(s, t, PublicationBy(h, CacheOf(t), Now(s) + 1));
    } else {
      PassHolds(s, t);
    }
  }

  lemma ActHolds(world: World, s: Sys, a: Action)
    requires Started(s) && Held(s)
    ensures Held(Act(world, s, a))
  {
    var t := Act(world, s, a);
    if a.Step? {
      if s.holder.Some? { StepHolds(world, s, a); }
    } else if t != s {
      PassHolds(s, t);
    }
  }

  lemma {:induction false} EveryRunHolds(world: World, s: Sys, actions: seq<Action>)
    requires Fresh(world, s)
    ensures Held(Run(world, s, actions)) && Run(world, s, actions).caches[0] == s.caches[0]
    decreases |actions|
  {
    if actions != [] {
      EveryRunHolds(world, s, actions[..|actions| - 1]);
      ActHolds(world, Run(world, s, actions[..|actions| - 1]), actions[|actions| - 1]);
    }
  }

  lemma {:induction false} InForceIsGood(world: World, s: Sys, n: nat, t: nat)
    requires Inv(world, s) && GoodCache(world, s.caches[0]) && n <= |s.publications|
    ensures GoodCache(world, InForce(s.caches[0], s.publications[..n], t))
    decreases n
  {
    if n > 0 {
      InForceIsGood(world, s, n - 1, t);
      assert s.publications[..n][..n - 1] == s.publications[..n - 1];
      assert s.publications[n - 1] in s.publications;
    }
  }

  /** Whatever the cache held at any time, a snapshot in it was the exact content of one head. */
  lemma HistoryIsGood(world: World, s: Sys, t: nat)
    requires Inv(world, s) && Held(s) && GoodCache(world, s.caches[0]) && t < |s.caches|
    ensures GoodCache(world, s.caches[t])
  {
    InForceIsGood(world, s, |s.publications|, t);
    assert s.publications[..|s.publications|] == s.publications;
  }

  /** At every time of every run a ready cache is the exact content of one head. */
  lemma CacheIsAlwaysGood(world: World, s: Sys, actions: seq<Action>, t: nat)
    requires Fresh(world, s) && t < |Run(world, s, actions).caches|
    ensures GoodCache(world, Run(world, s, actions).caches[t])
  {
    EveryRunIsGood(world, s, actions);
    EveryRunHolds(world, s, actions);
    HistoryIsGood(world, Run(world, s, actions), t);
  }

  /** An action only adds to the history. */
  lemma ActGrows(world: World, s: Sys, a: Action)
    requires Started(s)
    ensures var t := Act(world, s, a); |s.caches| <= |t.caches| && t.caches[..|s.caches|] == s.caches
  {
  }
}
