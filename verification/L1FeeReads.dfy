/**
 What a publication says, from the reads it rests on: in every run, each publication is what the head
 reads and loads that its refresh made under the lock oblige it to be.
 */
module L1FeeReads {
  import opened MachineInts
  import opened L1FeeCache

  /** The reads of `log` were made one after the other from `start` on and before `end`, and saw the heads then. */
  predicate Honest(heads: seq<Hash>, start: nat, end: nat, log: Log) {
    && |log.times| == |log.sights| && end <= |heads|
    && (forall i :: 0 <= i < |log.times| ==> start <= log.times[i] < end)
    && (forall i, j :: 0 <= i < j < |log.times| ==> log.times[i] < log.times[j])
    && (forall i :: 0 <= i < |log.times| && log.sights[i].Found? ==> log.sights[i].hash == heads[log.times[i]])
  }

  /** What the log of a running refresh looks like at each point of it. */
  predicate LogFits(world: World, cache: Cache, pc: Pc, log: Log) {
    match pc
    case Entered => log.sights == [] && log.loads == []
    case ReadTarget(n) =>
      && 1 <= n <= 3 && |log.sights| == 2 * (n - 1) && |log.loads| == n - 1
      && AllMoved(log.sights, n - 1) && Uncached(cache, log.sights)
    case CheckCache(n, target) => Targeted(cache, n, target, log)
    case Load(n, target) => Targeted(cache, n, target, log) && Uncached(cache, log.sights)
    case Verify(n, target, loaded) =>
      && 1 <= n <= 3 && |log.sights| == 2 * n - 1 && |log.loads| == n
      && log.sights[2 * n - 2] == Found(target) && AllMoved(log.sights, n - 1) && Uncached(cache, log.sights)
      && loaded == LoadOf(world, target, log.loads[n - 1])
    case Publish(result) => Uncached(cache, log.sights) && Concludes(world, log.sights, log.loads, result)
    case Done(_) => true
  }

  /** The n-th attempt has read its target, after `n - 1` that saw a move. */
  predicate Targeted(cache: Cache, n: nat, target: Hash, log: Log) {
    && 1 <= n <= 3 && |log.sights| == 2 * n - 1 && |log.loads| == n - 1
    && log.sights[2 * n - 2] == Found(target) && AllMoved(log.sights, n - 1)
    && Uncached(cache, log.sights[..2 * n - 2])
  }

  predicate LoggedHolder(world: World, s: Sys, h: Holder)
    requires Started(s)
  {
    && h.start < |s.heads| && Honest(s.heads, h.start, Now(s), h.log) && LogFits(world, CacheOf(s), h.pc, h.log)
    && (!h.pc.Entered? ==> !CacheOf(s).Disabled?)
  }

  predicate LoggedPublication(world: World, s: Sys, p: Publication) {
    && 0 < p.at < |s.caches| && p.start < p.at && s.caches[p.at] == p.value && !p.value.Disabled?
    && Honest(s.heads, p.start, p.at, p.log) && Uncached(s.caches[p.at - 1], p.log.sights)
    && Concludes(world, p.log.sights, p.log.loads, ResultOf(p.value))
  }

  ghost predicate Logged(world: World, s: Sys) {
    && Started(s) && (s.holder.Some? ==> LoggedHolder(world, s, s.holder.value))
    && forall p <- s.publications :: LoggedPublication(world, s, p)
  }

  // ----- One step of the holder ---------------------------------------------------------------------------------

  lemma UncachedPrefix(cache: Cache, sights: seq<HeadRead>, n: nat, target: Hash)
    requires n % 2 == 0 && |sights| == n + 1 && sights[n] == Found(target) && Uncached(cache, sights[..n])
    requires cache.Ready? ==> cache.snapshot.headHash != target
    ensures Uncached(cache, sights)
  {
    forall i | 0 <= i < |sights| && i % 2 == 0 && sights[i].Found? && cache.Ready?
      ensures cache.snapshot.headHash != sights[i].hash
    {
      if i < n { assert sights[..n][i] == sights[i]; }
    }
  }

  lemma TargetRead(world: World, cache: Cache, n: nat, log: Log, now: nat, read: HeadRead)
    requires LogFits(world, cache, ReadTarget(n), log)
    ensures var more := Extend(log, now, Head(read));
            && (read.Found? ==> LogFits(world, cache, CheckCache(n, read.hash), more))
            && (!read.Found? ==> LogFits(world, cache, Publish(Err(FailedRead(read))), more))
  {
    MovedStays(log.sights, [read], n - 1);
    assert (log.sights + [read])[..2 * n - 2] == log.sights;
  }

  lemma VerifyRead(world: World, cache: Cache, n: nat, target: Hash, loaded: Result<Snapshot, FeeError>, log: Log,
                   now: nat, read: HeadRead)
    requires LogFits(world, cache, Verify(n, target, loaded), log)
    ensures var more := Extend(log, now, Head(read));
            if read.Found? && read.hash != target && n < 3 then LogFits(world, cache, ReadTarget(n + 1), more)
            else LogFits(world, cache, Publish(if !read.Found? then Err(FailedRead(read))
                                               else if read.hash == target then loaded
                                               else Err(RefreshHeadMoved(3, target, read.hash))), more)
  {
    MovedStays(log.sights, [read], n - 1);
    if read.Found? && read.hash != target { assert Moved(log.sights + [read], n - 1); }
  }

  lemma AdvanceFits(world: World, cache: Cache, pc: Pc, log: Log, head: Hash, fate: Fate, failure: Option<LoadStage>,
                    now: nat)
    requires LogFits(world, cache, pc, log) && !pc.Publish? && !pc.Done?
    ensures var seen := Observe(pc, head, fate, failure);
            var pc' := Advance(world, cache, pc, seen).0;
            !pc'.Done? ==> LogFits(world, cache, pc', Extend(log, now, seen))
  {
    var seen := Observe(pc, head, fate, failure);
    match pc
    case ReadTarget(n) => TargetRead(world, cache, n, log, now, seen.read);
    case CheckCache(n, target) =>
      if cache.Ready? ==> cache.snapshot.headHash != target {
        UncachedPrefix(cache, log.sights, 2 * n - 2, target);
      }
    case Verify(n, target, loaded) => VerifyRead(world, cache, n, target, loaded, log, now, seen.read);
    case _ =>
  }

  lemma HonestGrows(heads: seq<Hash>, more: seq<Hash>, start: nat, end: nat, log: Log)
    requires Honest(heads, start, end, log)
    ensures Honest(heads + more, start, end, log)
  {
  }

  /** Any observation but a head read of another head extends an honest log. */
  lemma HonestExtends(s: Sys, start: nat, log: Log, pc: Pc, fate: Fate, failure: Option<LoadStage>)
    requires Started(s) && start <= Now(s) && Honest(s.heads, start, Now(s), log)
    ensures Honest(s.heads, start, Now(s) + 1, Extend(log, Now(s), Observe(pc, HeadOf(s), fate, failure)))
  {
  }

  // ----- Every run ---------------------------------------------------------------------------------------------------

  lemma PublicationStays(world: World, s: Sys, head: Hash, cache: Cache, p: Publication)
    requires Started(s) && LoggedPublication(world, s, p)
    ensures LoggedPublication(world, Pass(s, head, cache), p)
  {
    HonestGrows(s.heads, [head], p.start, p.at, p.log);
  }

  lemma PassLogs(world: World, s: Sys, head: Hash, t: Sys)
    requires Logged(world, s) && t.heads == s.heads + [head] && t.caches == s.caches + [CacheOf(s)]
    requires t.publications == s.publications && (t.holder.Some? ==> LoggedHolder(world, t, t.holder.value))
    ensures Logged(world, t)
  {
    forall p | p in t.publications ensures LoggedPublication(world, t, p) {
      PublicationStays(world, s, head, CacheOf(s), p);
    }
  }

  lemma HolderWaits(world: World, s: Sys, h: Holder, head: Hash)
    requires Started(s) && LoggedHolder(world, s, h)
    ensures LoggedHolder(world, Pass(s, head, CacheOf(s)), h)
  {
    HonestGrows(s.heads, [head], h.start, Now(s), h.log);
  }

  lemma HolderSteps(world: World, s: Sys, h: Holder, fate: Fate, failure: Option<LoadStage>)
    requires Started(s) && LoggedHolder(world, s, h) && !h.pc.Publish? && !h.pc.Done?
    requires !Advance(world, CacheOf(s), h.pc, Observe(h.pc, HeadOf(s), fate, failure)).0.Done?
    ensures var seen := Observe(h.pc, HeadOf(s), fate, failure);
            var (pc, cache) := Advance(world, CacheOf(s), h.pc, seen);
            && cache == CacheOf(s)
            && LoggedHolder(world, Pass(s, HeadOf(s), cache), StepHolder(h, pc, Now(s), seen))
  {
    AdvanceFits(world, CacheOf(s), h.pc, h.log, HeadOf(s), fate, failure, Now(s));
    HonestExtends(s, h.start, h.log, h.pc, fate, failure);
    var seen := Observe(h.pc, HeadOf(s), fate, failure);
    HonestGrows(s.heads, [HeadOf(s)], h.start, Now(s) + 1, Extend(h.log, Now(s), seen));
  }

  lemma PublishLogs(world: World, s: Sys, h: Holder)
    requires Started(s) && LoggedHolder(world, s, h) && h.pc.Publish?
    ensures var cache := Advance(world, CacheOf(s), h.pc, Nothing).1;
            LoggedPublication(world, Pass(s, HeadOf(s), cache), PublicationBy(h, cache, Now(s) + 1))
  {
    assert h.log.sights != [];
    HonestGrows(s.heads, [HeadOf(s)], h.start, Now(s), h.log);
  }

  lemma PublishStepLogs(world: World, s: Sys, a: Action)
    requires Logged(world, s) && a.Step? && s.holder.Some? && s.holder.value.pc.Publish?
    ensures Logged(world, Act(world, s, a))
  {
    var h, t := s.holder.value, Act(world, s, a);
    var cache := Advance(world, CacheOf(s), h.pc, Nothing).1;
    PublishLogs(world, s, h);
    StepPublishesOrPasses(world, s, a);
    forall p | p in t.publications ensures LoggedPublication(world, t, p) {
      if p in s.publications {
        PublicationStays(world, s, HeadOf(s), cache, p);
      } else {
        assert p == PublicationBy(h, cache, Now(s) + 1);
      }
    }
  }

  lemma StepLogs(world: World, s: Sys, a: Action)
    requires Logged(world, s) && a.Step? && s.holder.Some? && !s.holder.value.pc.Done?
    requires !s.holder.value.pc.Publish?
    ensures Logged(world, Act(world, s, a))
  {
    var h, t := s.holder.value, Act(world, s, a);
    var seen := Observe(h.pc, HeadOf(s), a.fate, a.failure);
    if !Advance(world, CacheOf(s), h.pc, seen).0.Done? { HolderSteps(world, s, h, a.fate, a.failure); }
    StepPublishesOrPasses(world, s, a);
    PassLogs(world, s, HeadOf(s), t);
  }

  lemma ActLogs(world: World, s: Sys, a: Action)
    requires Logged(world, s) && (s.holder.Some? ==> !s.holder.value.pc.Done?)
    ensures Logged(world, Act(world, s, a))
  {
    var t := Act(world, s, a);
    if a.Step? {
      if s.holder.Some? {
        if s.holder.value.pc.Publish? { PublishStepLogs(world, s, a); } else { StepLogs(world, s, a); }
      }
    } else if t != s {
      var head := t.heads[|t.heads| - 1];
      if s.holder.Some? { HolderWaits(world, s, s.holder.value, head); }
      PassLogs(world, s, head, t);
    }
  }

  lemma {:induction false} EveryRunIsLogged(world: World, s: Sys, actions: seq<Action>)
    requires Fresh(world, s)
    ensures Logged(world, Run(world, s, actions))
    decreases |actions|
  {
    if actions != [] {
      EveryRunIsLogged(world, s, actions[..|actions| - 1]);
      EveryRunIsGood(world, s, actions[..|actions| - 1]);
      ActLogs(world, Run(world, s, actions[..|actions| - 1]), actions[|actions| - 1]);
    }
  }

  /**
   In every run, each publication follows from the head reads that its refresh made, in this order and
   while it held the lock, and from the outcomes of its loads.
   */
  lemma PublicationFollowsReads(world: World, s: Sys, actions: seq<Action>, i: nat)
    requires Fresh(world, s) && i < |Run(world, s, actions).publications|
    ensures var (t, p) := (Run(world, s, actions), Run(world, s, actions).publications[i]);
            && p.at < |t.heads| && !p.value.Disabled? && Honest(t.heads, p.start, p.at, p.log)
            && Concludes(world, p.log.sights, p.log.loads, ResultOf(p.value))
  {
    EveryRunIsLogged(world, s, actions);
    assert Run(world, s, actions).publications[i] in Run(world, s, actions).publications;
  }

  /** Six times in order, in three pairs between which the head was another one; the last pair saw these two. */
  predicate MovedThrice(heads: seq<Hash>, times: seq<nat>, start: nat, end: nat, target: Hash, latest: Hash) {
    && |times| == 6 && end <= |heads| && (forall i :: 0 <= i < 6 ==> start <= times[i] < end)
    && (forall i, j :: 0 <= i < j < 6 ==> times[i] < times[j])
    && heads[times[0]] != heads[times[1]] && heads[times[2]] != heads[times[3]]
    && heads[times[4]] == target && heads[times[5]] == latest && target != latest
  }

  lemma ThreeMoves(world: World, heads: seq<Hash>, start: nat, end: nat, log: Log, error: FeeError)
    requires Honest(heads, start, end, log) && Concludes(world, log.sights, log.loads, Err(error))
    requires error.RefreshHeadMoved?
    ensures error.attempts == 3 && MovedThrice(heads, log.times, start, end, error.target, error.latest)
  {
    assert Moved(log.sights, 0) && Moved(log.sights, 1);
  }

  /** A refresh reports a moved head only after three attempts, each of which saw the head move under it. */
  lemma MovedHeadWasTriedThrice(world: World, s: Sys, actions: seq<Action>, i: nat)
    requires Fresh(world, s) && i < |Run(world, s, actions).publications|
    requires var value := Run(world, s, actions).publications[i].value;
             value.Unavailable? && value.error.RefreshHeadMoved?
    ensures var (t, p) := (Run(world, s, actions), Run(world, s, actions).publications[i]);
            && p.value.error.attempts == 3
            && MovedThrice(t.heads, p.log.times, p.start, p.at, p.value.error.target, p.value.error.latest)
  {
    PublicationFollowsReads(world, s, actions, i);
    var t, p := Run(world, s, actions), Run(world, s, actions).publications[i];
    ThreeMoves(world, t.heads, p.start, p.at, p.log, p.value.error);
  }

  /** If every read finds a head and the head stays put during one attempt, that head is what gets published. */
  lemma SteadyHeadIsPublishedInRuns(world: World, s: Sys, actions: seq<Action>, i: nat)
    requires Fresh(world, s) && i < |Run(world, s, actions).publications|
    requires var sights := Run(world, s, actions).publications[i].log.sights;
             (forall r <- sights :: r.Found?) && !AllMoved(sights, 3)
    ensures var (t, p) := (Run(world, s, actions), Run(world, s, actions).publications[i]);
            var n := |p.log.times| / 2;
            && 1 <= n <= 3 && |p.log.times| == 2 * n && |p.log.loads| == n
            && p.log.times[2 * n - 2] < p.log.times[2 * n - 1] < p.at < |t.heads|
            && t.heads[p.log.times[2 * n - 2]] == t.heads[p.log.times[2 * n - 1]]
            && p.value == match p.log.loads[n - 1]
                          case None => Ready(SnapshotOf(world, t.heads[p.log.times[2 * n - 1]]))
                          case Some(stage) => Unavailable(LoadFailed(stage, t.heads[p.log.times[2 * n - 1]]))
  {
    PublicationFollowsReads(world, s, actions, i);
    var p := Run(world, s, actions).publications[i];
    SteadyHeadIsPublished(world, p.log.sights, p.log.loads, ResultOf(p.value));
    var n := |p.log.sights| / 2;
    assert p.log.sights[2 * n - 1] in p.log.sights && p.log.sights[2 * n - 2] in p.log.sights;
  }
}
