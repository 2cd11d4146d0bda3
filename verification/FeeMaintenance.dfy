/**
 The task that keeps the L1-fee cache current: a bounded notification channel that can lag, the
 startup order subscribe, hydrate, drain, refresh, ready, and a retry timer with doubling backoff.
 The k-th head move is announced by the k-th notification, sent no earlier than the move.
 */
module FeeMaintenance {
  import opened MachineInts
  import opened L1FeeCache

  // ----- Backoff -------------------------------------------------------------------------------------

  /** `Duration::MAX` in nanoseconds. */
  const DURATION_MAX: nat := 18_446_744_073_709_551_615_999_999_999

  datatype BackoffConfig = BackoffConfig(initial: nat, max: nat)

  predicate ValidConfig(cfg: BackoffConfig) { cfg.initial <= DURATION_MAX && cfg.max <= DURATION_MAX }

  /** The current delay, and the delay the deadline was armed with. */
  datatype Backoff = Backoff(delay: nat, deadline: Option<nat>)

  /** After startup and after a notification. */
  function Rearm(cfg: BackoffConfig, available: bool): Backoff {
    Backoff(cfg.initial, if available then None else Some(cfg.initial))
  }

  /** After the retry timer fired; the doubling saturates. */
  function AfterTimer(cfg: BackoffConfig, b: Backoff, available: bool): Backoff {
    if available then Backoff(cfg.initial, None)
    else
      var delay := Min(Min(2 * b.delay, DURATION_MAX), cfg.max);
      Backoff(delay, Some(delay))
  }

  datatype LoopEvent = Notified(available: bool) | LaggedBehind(available: bool) | TimerFired(available: bool)

  function AfterEvent(cfg: BackoffConfig, b: Backoff, e: LoopEvent): Backoff {
    if !e.TimerFired? then Rearm(cfg, e.available)
    else if b.deadline.Some? then AfterTimer(cfg, b, e.available) else b
  }

  function AfterEvents(cfg: BackoffConfig, available: bool, events: seq<LoopEvent>): Backoff {
    if events == [] then Rearm(cfg, available)
    else AfterEvent(cfg, AfterEvents(cfg, available, events[..|events| - 1]), events[|events| - 1])
  }

  /** The select loop of the task, on the refresh results it gets; a timer only fires while a deadline is armed. */
  method MaintenanceLoop(cfg: BackoffConfig, startup: bool, events: seq<LoopEvent>)
    returns (delay: nat, deadline: Option<nat>)
    requires ValidConfig(cfg)
    ensures Backoff(delay, deadline) == AfterEvents(cfg, startup, events)
  {
    var available := startup;
    delay := cfg.initial;
    deadline := if available then None else Some(delay);
    for i := 0 to |events|
      invariant Backoff(delay, deadline) == AfterEvents(cfg, startup, events[..i])
    {
      assert events[..i + 1][..i] == events[..i];
      match events[i] {
        case Notified(a) =>
          available := a;
          delay := cfg.initial;
          deadline := if available then None else Some(delay);
        case LaggedBehind(a) =>
          available := a;
          delay := cfg.initial;
          deadline := if available then None else Some(delay);
        case TimerFired(a) =>
          if deadline.Some? {
            available := a;
            if available {
              delay, deadline := cfg.initial, None;
            } else {
              delay := Min(Min(2 * delay, DURATION_MAX), cfg.max);
              deadline := Some(delay);
            }
          }
      }
    }
    assert events[..|events|] == events;
  }

  /** Failed timer refreshes since the last other event. */
  function Failures(events: seq<LoopEvent>): nat {
    if events == [] then 0
    else
      var last := events[|events| - 1];
      if last == TimerFired(false) then Failures(events[..|events| - 1]) + 1 else 0
  }

  function Doubled(x: nat, k: nat): nat { if k == 0 then x else 2 * Doubled(x, k - 1) }

  /** The delay after `k` failed retries: the initial one, then doubled `k` times and cut at the maximum. */
  function DelayAfter(cfg: BackoffConfig, k: nat): nat {
    if k == 0 then cfg.initial else Min(Doubled(cfg.initial, k), cfg.max)
  }

  lemma DelayDoubles(cfg: BackoffConfig, k: nat)
    requires ValidConfig(cfg)
    ensures Min(Min(2 * DelayAfter(cfg, k), DURATION_MAX), cfg.max) == DelayAfter(cfg, k + 1)
  {
    assert Doubled(cfg.initial, 0) == cfg.initial;
    assert Doubled(cfg.initial, k + 1) == 2 * Doubled(cfg.initial, k);
  }

  /** Whether the last refresh found the cache available: a timer with no deadline does not refresh. */
  function LastAvailable(startup: bool, events: seq<LoopEvent>): bool {
    if events == [] then startup
    else
      var before, last := LastAvailable(startup, events[..|events| - 1]), events[|events| - 1];
      if last.TimerFired? && before then true else last.available
  }

  /** A deadline is armed exactly while the last refresh failed, with the doubled and bounded delay. */
  lemma {:induction false} DeadlineIff(cfg: BackoffConfig, startup: bool, events: seq<LoopEvent>)
    requires ValidConfig(cfg)
    ensures var b := AfterEvents(cfg, startup, events);
            && (b.deadline.Some? <==> !LastAvailable(startup, events))
            && (b.deadline.Some? ==> b.deadline.value == b.delay == DelayAfter(cfg, Failures(events)))
            && (b.deadline.None? ==> b.delay == cfg.initial)
    decreases |events|
  {
    if events != [] {
      var n := |events| - 1;
      DeadlineIff(cfg, startup, events[..n]);
      DelayDoubles(cfg, Failures(events[..n]));
    }
  }

  // ----- The machine -------------------------------------------------------------------------------------

  datatype Task =
    | Draining
    | DrainLagged
    | DrainRefresh(pc: Pc)
    | StartRefresh(pc: Pc)
    | Signalling(available: bool)
    | Waiting
    | Lagged
    | Refreshing(pc: Pc, timer: bool)
    | Stopped

  /**
   `heads[k]` is the head after `k` moves, `sent` counts the notifications sent and `pos` those the
   receiver has taken or skipped; it lags when more than `capacity` are pending.
   */
  datatype Node = Node(
    heads: seq<Hash>, sent: nat, pos: nat, capacity: nat, closed: bool, cache: Cache, task: Task, backoff: Backoff)
  {
    predicate Sane() { heads != [] && pos <= sent <= |heads| - 1 }

    function Head(): Hash
      requires Sane()
    {
      heads[|heads| - 1]
    }

    function Moves(): nat
      requires Sane()
    {
      |heads| - 1
    }
  }

  datatype Event =
    | Move(hash: Hash)
    | Send
    | Close
    | Receive
    | Resubscribe
    | RefreshStep(fate: Fate, failure: Option<LoadStage>)
    | Timer
    | Signal(heard: bool)

  function AfterRefresh(cfg: BackoffConfig, s: Node, available: bool): Node {
    match s.task
    case DrainRefresh(_) => s.(task := Draining)
    case StartRefresh(_) => s.(task := Signalling(available))
    case Refreshing(_, timer) =>
      s.(task := Waiting, backoff := if timer then AfterTimer(cfg, s.backoff, available) else Rearm(cfg, available))
    case _ => s
  }

  function PcOf(t: Task): Option<Pc> {
    match t
    case DrainRefresh(pc) => Some(pc)
    case StartRefresh(pc) => Some(pc)
    case Refreshing(pc, _) => Some(pc)
    case _ => None
  }

  function WithPc(t: Task, pc: Pc): Task {
    match t
    case DrainRefresh(_) => DrainRefresh(pc)
    case StartRefresh(_) => StartRefresh(pc)
    case Refreshing(_, timer) => Refreshing(pc, timer)
    case _ => t
  }

  function ReceiveStep(s: Node): Node {
    if s.task.Draining? then
      if s.sent - s.pos > s.capacity then s.(task := DrainLagged)
      else if s.pos < s.sent then s.(pos := s.pos + 1, task := DrainRefresh(Entered))
      else if s.closed then s.(task := Stopped)
      else s.(task := StartRefresh(Entered))
    else if s.task.Waiting? then
      if s.sent - s.pos > s.capacity then s.(task := Lagged)
      else if s.pos < s.sent then s.(pos := s.pos + 1, task := Refreshing(Entered, false))
      else if s.closed then s.(task := Stopped)
      else s
    else s
  }

  function RefreshStepOf(world: World, cfg: BackoffConfig, s: Node, fate: Fate, failure: Option<LoadStage>): (t: Node)
    requires s.Sane()
    ensures t.Sane()
  {
    if PcOf(s.task).None? then s
    else
      var pc := PcOf(s.task).value;
      var (pc', cache) := Advance(world, s.cache, pc, Observe(pc, s.Head(), fate, failure));
      var t := s.(cache := cache, task := WithPc(s.task, pc'));
      if pc'.Done? then AfterRefresh(cfg, t, pc'.available) else t
  }

  function Next(world: World, cfg: BackoffConfig, s: Node, e: Event): (t: Node)
    requires s.Sane()
    ensures t.Sane()
  {
    match e
    case Move(h) => s.(heads := s.heads + [h])
    case Send => if s.sent < s.Moves() && !s.closed then s.(sent := s.sent + 1) else s
    case Close => s.(closed := true)
    case Receive => ReceiveStep(s)
    case Resubscribe =>
      if s.task.DrainLagged? then s.(pos := s.sent, task := DrainRefresh(Entered))
      else if s.task.Lagged? then s.(pos := s.sent, task := Refreshing(Entered, false))
      else s
    case RefreshStep(fate, failure) => RefreshStepOf(world, cfg, s, fate, failure)
    case Timer => if s.task.Waiting? && s.backoff.deadline.Some? then s.(task := Refreshing(Entered, true)) else s
    case Signal(heard) =>
      if !s.task.Signalling? then s
      else if heard then s.(task := Waiting, backoff := Rearm(cfg, s.task.available))
      else s.(task := Stopped)
  }

  // ----- The channel and the order of startup -------------------------------------------------------------------

  /**
   A receiver takes a notification only while the channel still holds it, one at a time and in order,
   and starts a refresh for it; it learns that it lags exactly when more are pending than the channel
   holds, and then one refresh stands for everything sent so far.
   */
  lemma NotificationsAreTakenInOrder(world: World, cfg: BackoffConfig, s: Node, e: Event)
    requires s.Sane()
    ensures var t := Next(world, cfg, s, e);
            && (t.pos != s.pos ==> && PcOf(t.task) == Some(Entered)
                                   && if e.Receive? then t.pos == s.pos + 1 <= s.sent <= s.pos + s.capacity
                                      else t.pos == s.sent && e.Resubscribe? && (s.task.Lagged? || s.task.DrainLagged?))
            && ((t.task.Lagged? && !s.task.Lagged?) || (t.task.DrainLagged? && !s.task.DrainLagged?) ==>
                  e.Receive? && s.sent - s.pos > s.capacity)
            && (e.Receive? && (s.task.Waiting? || s.task.Draining?) && s.pos < s.sent ==>
                  if s.sent - s.pos > s.capacity then t.task.Lagged? || t.task.DrainLagged? else t.pos == s.pos + 1)
            && (e.Resubscribe? && (s.task.Lagged? || s.task.DrainLagged?) ==>
                  t.pos == s.sent && PcOf(t.task) == Some(Entered))
            && t.sent == s.sent + (if e.Send? && s.sent < s.Moves() && !s.closed then 1 else 0)
  {
  }

  /** Draining, the startup refresh, the ready signal, the loop; a stopped task is past all of them. */
  function Phase(t: Task): nat {
    match t
    case Draining => 0
    case DrainLagged => 0
    case DrainRefresh(_) => 0
    case StartRefresh(_) => 1
    case Signalling(_) => 2
    case Waiting => 3
    case Lagged => 3
    case Refreshing(_, _) => 3
    case Stopped => 4
  }

  /**
   The startup order is kept by every event: phases follow one another, the startup refresh begins only
   with nothing pending on an open channel, its result is what is signalled, and the loop begins only
   once the signal was heard.
   */
  lemma StartupIsInOrder(world: World, cfg: BackoffConfig, s: Node, e: Event)
    requires Inv(s)
    ensures var t := Next(world, cfg, s, e);
            && (Phase(t.task) == Phase(s.task) || Phase(t.task) == Phase(s.task) + 1 || t.task.Stopped?)
            && (Phase(s.task) == 0 && Phase(t.task) == 1 ==>
                  e.Receive? && s.pos == s.sent && !s.closed && PcOf(t.task) == Some(Entered))
            && (Phase(s.task) == 1 && Phase(t.task) == 2 ==> t.task.available == t.cache.Ready?)
            && (Phase(s.task) == 2 && Phase(t.task) == 3 ==>
                  e == Signal(true) && t.task.Waiting? && t.backoff == Rearm(cfg, s.task.available))
            && (t.task.Stopped? && !s.task.Stopped? ==>
                  (e == Signal(false) && s.task.Signalling?) || (e.Receive? && s.closed && s.pos == s.sent))
            && (e.Receive? && s.closed && s.pos == s.sent && (s.task.Waiting? || s.task.Draining?) ==> t.task.Stopped?)
            && (e.Timer? && s.task.Waiting? && s.backoff.deadline.Some? ==> t.task == Refreshing(Entered, true))
            && (e.Signal? && s.task.Signalling? ==> if e.heard then t.task.Waiting? else t.task.Stopped?)
  {
    NextKeeps(world, cfg, s, e);
  }

  // ----- The timer of the machine is that of the loop --------------------------------------------------------------

  /** The loop event that a step of the running task completes, if it completes one. */
  function Completes(s: Node, t: Node): Option<LoopEvent> {
    if s.task.Refreshing? && t.task.Waiting? then
      Some(if s.task.timer then TimerFired(t.cache.Ready?) else Notified(t.cache.Ready?))
    else None
  }

  /** A timer refresh runs only while its deadline is still the one that was armed. */
  predicate TimerArmed(s: Node) { s.task.Refreshing? && s.task.timer ==> s.backoff.deadline.Some? }

  lemma BackoffFollowsLoop(world: World, cfg: BackoffConfig, s: Node, e: Event)
    requires Inv(s) && TimerArmed(s)
    ensures var t := Next(world, cfg, s, e);
            && TimerArmed(t)
            && (Phase(s.task) == 3 ==>
                  t.backoff == match Completes(s, t)
                               case Some(event) => AfterEvent(cfg, s.backoff, event)
                               case None => s.backoff)
  {
    if e.RefreshStep? && PcOf(s.task).Some? {
      var pc := PcOf(s.task).value;
      var seen := Observe(pc, s.Head(), e.fate, e.failure);
      if Advance(world, s.cache, pc, seen).0.Done? { RefreshEnds(world, cfg, s, pc, seen); }
    }
  }

  /** The loop events of a run, in order. */
  function LoopEvents(world: World, cfg: BackoffConfig, s: Node, events: seq<Event>): seq<LoopEvent>
    requires s.Sane()
    decreases |events|
  {
    if events == [] then []
    else
      var prefix, last := events[..|events| - 1], events[|events| - 1];
      var t := Run(world, cfg, s, prefix);
      LoopEvents(world, cfg, s, prefix)
      + (match Completes(t, Next(world, cfg, t, last)) case Some(event) => [event] case None => [])
  }

  /** Once the loop has begun, its backoff is that of its completed refreshes, with the startup result before them. */
  lemma {:induction false} EveryRunFollowsLoop(world: World, cfg: BackoffConfig, s: Node, events: seq<Event>,
                                               startup: bool)
    requires Inv(s) && s.task.Waiting? && s.backoff == Rearm(cfg, startup)
    ensures var t := Run(world, cfg, s, events);
            TimerArmed(t) && Phase(t.task) >= 3
            && (!t.task.Stopped? ==> t.backoff == AfterEvents(cfg, startup, LoopEvents(world, cfg, s, events)))
    decreases |events|
  {
    if events != [] {
      var prefix, last := events[..|events| - 1], events[|events| - 1];
      var t := Run(world, cfg, s, prefix);
      EveryRunFollowsLoop(world, cfg, s, prefix, startup);
      EveryRunKeepsInv(world, cfg, s, prefix);
      BackoffFollowsLoop(world, cfg, t, last);
      StartupIsInOrder(world, cfg, t, last);
      match Completes(t, Next(world, cfg, t, last))
      case Some(event) => AfterEventsSnoc(cfg, startup, LoopEvents(world, cfg, s, prefix), event);
      case None => assert LoopEvents(world, cfg, s, prefix) + [] == LoopEvents(world, cfg, s, prefix);
    }
  }

  lemma AfterEventsSnoc(cfg: BackoffConfig, available: bool, events: seq<LoopEvent>, e: LoopEvent)
    ensures AfterEvents(cfg, available, events + [e]) == AfterEvent(cfg, AfterEvents(cfg, available, events), e)
  {
    assert (events + [e])[..|events + [e]| - 1] == events;
  }

  // ----- Safety --------------------------------------------------------------------------------------------

  /** `h` was the head at some point not before the last notification taken. */
  ghost predicate Seen(s: Node, h: Hash) {
    exists v :: s.pos <= v < |s.heads| && s.heads[v] == h
  }

  ghost predicate CacheSeen(s: Node) {
    s.cache.Ready? ==> Seen(s, s.cache.snapshot.headHash)
  }

  /** What a running refresh has established. */
  ghost predicate PcSeen(s: Node, pc: Pc) {
    && ValidPc(pc) && !pc.Done?
    && match pc
       case CheckCache(_, t) => Seen(s, t)
       case Verify(_, t, loaded) => loaded.Ok? ==> loaded.value.headHash == t
       case Publish(Ok(snapshot)) => Seen(s, snapshot.headHash)
       case _ => true
  }

  ghost predicate Inv(s: Node) {
    && s.Sane() && !s.cache.Disabled?
    && (PcOf(s.task).Some? ==> PcSeen(s, PcOf(s.task).value))
    && match s.task
       case Signalling(available) => CacheSeen(s) && (available <==> s.cache.Ready?)
       case Waiting => CacheSeen(s) && (s.backoff.deadline.Some? <==> s.cache.Unavailable?)
       case Lagged => s.pos < s.sent
       case DrainLagged => s.pos < s.sent
       case _ => true
  }

  predicate ReadyForHead(s: Node)
    requires s.Sane()
  {
    s.cache.Ready? && s.cache.snapshot.headHash == s.Head()
  }

  /** A refresh is running or certain to run next: startup, or a lag report just taken. */
  predicate RefreshUnderWay(s: Node) {
    PcOf(s.task).Some? || s.task.Draining? || s.task.DrainLagged? || s.task.Lagged?
  }

  lemma SeenKeeps(s: Node, t: Node, h: Hash)
    requires Seen(s, h) && t.pos == s.pos && |s.heads| <= |t.heads| && t.heads[..|s.heads|] == s.heads
    ensures Seen(t, h)
  {
    var v :| s.pos <= v < |s.heads| && s.heads[v] == h;
    assert t.heads[v] == t.heads[..|s.heads|][v] == h;
  }

  lemma MoveKeeps(s: Node, h: Hash)
    requires Inv(s)
    ensures Inv(s.(heads := s.heads + [h]))
  {
    var t := s.(heads := s.heads + [h]);
    if s.cache.Ready? && Seen(s, s.cache.snapshot.headHash) { SeenKeeps(s, t, s.cache.snapshot.headHash); }
    match PcOf(s.task)
    case Some(CheckCache(_, target)) => SeenKeeps(s, t, target);
    case Some(Publish(Ok(snapshot))) => SeenKeeps(s, t, snapshot.headHash);
    case _ =>
  }

  lemma SameSeen(s: Node, t: Node, h: Hash)
    requires t.pos == s.pos && t.heads == s.heads
    ensures Seen(s, h) <==> Seen(t, h)
  {
  }

  /** What the next step of a refresh establishes, if it does not return. */
  lemma PcSeenAdvances(world: World, s: Node, pc: Pc, fate: Fate, failure: Option<LoadStage>)
    requires s.Sane() && PcSeen(s, pc)
    ensures var (pc', cache) := Advance(world, s.cache, pc, Observe(pc, s.Head(), fate, failure));
            !pc'.Done? ==> PcSeen(s, pc') && cache == s.cache
  {
    AdvanceTerminates(world, s.cache, pc, Observe(pc, s.Head(), fate, failure));
    assert s.heads[s.Moves()] == s.Head();
  }

  lemma SamePcSeen(s: Node, t: Node, pc: Pc)
    requires PcSeen(s, pc) && t.pos == s.pos && t.heads == s.heads
    ensures PcSeen(t, pc)
  {
    match pc
    case CheckCache(_, target) => SameSeen(s, t, target);
    case Publish(Ok(snapshot)) => SameSeen(s, t, snapshot.headHash);
    case _ =>
  }

  lemma RefreshAdvances(world: World, cfg: BackoffConfig, s: Node, fate: Fate, failure: Option<LoadStage>)
    requires Inv(s) && PcOf(s.task).Some?
    ensures Inv(RefreshStepOf(world, cfg, s, fate, failure))
  {
    var pc := PcOf(s.task).value;
    var seen := Observe(pc, s.Head(), fate, failure);
    var pc' := Advance(world, s.cache, pc, seen).0;
    if pc'.Done? {
      RefreshEnds(world, cfg, s, pc, seen);
    } else {
      PcSeenAdvances(world, s, pc, fate, failure);
      SamePcSeen(s, RefreshStepOf(world, cfg, s, fate, failure), pc');
    }
  }

  /** A refresh that returned true left the cache ready for a head seen since the last notification taken. */
  lemma RefreshEnds(world: World, cfg: BackoffConfig, s: Node, pc: Pc, seen: Observation)
    requires Inv(s) && PcOf(s.task) == Some(pc) && Advance(world, s.cache, pc, seen).0.Done?
    ensures var (pc', cache) := Advance(world, s.cache, pc, seen);
            && !cache.Disabled? && (pc'.available <==> cache.Ready?)
            && CacheSeen(s.(cache := cache))
            && Inv(AfterRefresh(cfg, s.(cache := cache, task := WithPc(s.task, pc')), pc'.available))
  {
    var (pc', cache) := Advance(world, s.cache, pc, seen);
    assert pc.CheckCache? || pc.Publish?;
    var t := AfterRefresh(cfg, s.(cache := cache, task := WithPc(s.task, pc')), pc'.available);
    if cache.Ready? {
      SameSeen(s, s.(cache := cache), cache.snapshot.headHash);
      SameSeen(s, t, cache.snapshot.headHash);
    }
  }

  lemma NextKeeps(world: World, cfg: BackoffConfig, s: Node, e: Event)
    requires Inv(s)
    ensures Inv(Next(world, cfg, s, e))
  {
    match e
    case Move(h) => MoveKeeps(s, h);
    case RefreshStep(fate, failure) => if PcOf(s.task).Some? { RefreshAdvances(world, cfg, s, fate, failure); }
    case _ => OtherKeeps(world, cfg, s, e);
  }

  lemma OtherKeeps(world: World, cfg: BackoffConfig, s: Node, e: Event)
    requires Inv(s) && !e.Move? && !e.RefreshStep?
    ensures Inv(Next(world, cfg, s, e))
  {
    var t := Next(world, cfg, s, e);
    if t.pos == s.pos {
      if s.cache.Ready? { SameSeen(s, t, s.cache.snapshot.headHash); }
      match PcOf(s.task)
      case Some(CheckCache(_, target)) => SameSeen(s, t, target);
      case Some(Publish(Ok(snapshot))) => SameSeen(s, t, snapshot.headHash);
      case _ =>
    }
  }

  function Run(world: World, cfg: BackoffConfig, s: Node, events: seq<Event>): (t: Node)
    requires s.Sane()
    ensures t.Sane()
    decreases |events|
  {
    if events == [] then s
    else Next(world, cfg, Run(world, cfg, s, events[..|events| - 1]), events[|events| - 1])
  }

  lemma {:induction false} EveryRunKeepsInv(world: World, cfg: BackoffConfig, s: Node, events: seq<Event>)
    requires Inv(s)
    ensures Inv(Run(world, cfg, s, events))
    decreases |events|
  {
    if events != [] {
      EveryRunKeepsInv(world, cfg, s, events[..|events| - 1]);
      NextKeeps(world, cfg, Run(world, cfg, s, events[..|events| - 1]), events[|events| - 1]);
    }
  }

  /** The node when the task starts: subscribed at some point, with whatever cache was hydrated before or after. */
  predicate Subscribed(s: Node) {
    s.Sane() && s.task == Draining && !s.cache.Disabled?
  }

  /** Why a cache may not be ready for the current head. */
  predicate Excused(s: Node) {
    || RefreshUnderWay(s) || s.task.Stopped?
    || (s.Sane() && (s.sent < s.Moves() || s.pos < s.sent))
    || (if s.task.Signalling? then !s.task.available else s.backoff.deadline.Some?)
  }

  lemma StaleIsExcused(s: Node)
    requires Inv(s) && !Excused(s)
    ensures ReadyForHead(s)
  {
    assert s.task.Signalling? || s.task.Waiting?;
    var v :| s.pos <= v < |s.heads| && s.heads[v] == s.cache.snapshot.headHash;
    assert v == s.Moves();
  }

  /**
   In every run of head moves, notifications, lag, reorgs, failing reads and retries, whenever the
   cache is not ready for the current head, a notification is unsent or pending, a refresh is under
   way or certain, or a retry deadline is armed (or about to be), unless the task has stopped. It
   does not matter whether the cache was hydrated before or after subscribing: the startup refresh
   comes after both.
   */
  lemma StaleOnlyWithCause(world: World, cfg: BackoffConfig, s: Node, events: seq<Event>)
    requires Subscribed(s)
    ensures ReadyForHead(Run(world, cfg, s, events)) || Excused(Run(world, cfg, s, events))
  {
    EveryRunKeepsInv(world, cfg, s, events);
    if !Excused(Run(world, cfg, s, events)) { StaleIsExcused(Run(world, cfg, s, events)); }
  }

  predicate Quiescent(s: Node) {
    s.Sane() && s.task.Waiting? && s.pos == s.sent == s.Moves() && s.backoff.deadline.None?
  }

  /** At rest the cache is ready for the latest head. */
  lemma QuiescentIsReady(s: Node)
    requires Inv(s) && Quiescent(s)
    ensures ReadyForHead(s)
  {
    var v :| s.pos <= v < |s.heads| && s.heads[v] == s.cache.snapshot.headHash;
    assert v == s.Moves();
  }

  // ----- What hydrating after subscribing adds -----------------------------------------------------------------

  /** While draining, the cache holds a head seen since the last notification taken. */
  ghost predicate StartupSeen(s: Node) {
    s.task.Draining? || s.task.DrainLagged? ==> CacheSeen(s)
  }

  lemma StartupKeeps(world: World, cfg: BackoffConfig, s: Node, e: Event)
    requires Inv(s) && StartupSeen(s)
    ensures StartupSeen(Next(world, cfg, s, e))
  {
    var t := Next(world, cfg, s, e);
    if e.RefreshStep? && PcOf(s.task).Some? {
      var pc := PcOf(s.task).value;
      var seen := Observe(pc, s.Head(), e.fate, e.failure);
      if Advance(world, s.cache, pc, seen).0.Done? {
        RefreshEnds(world, cfg, s, pc, seen);
        if t.cache.Ready? { SameSeen(s.(cache := t.cache), t, t.cache.snapshot.headHash); }
      }
    } else if s.cache.Ready? && CacheSeen(s) && t.pos == s.pos {
      SeenKeeps(s, t, s.cache.snapshot.headHash);
    }
  }

  lemma {:induction false} StartupSeenThroughRun(world: World, cfg: BackoffConfig, s: Node, events: seq<Event>)
    requires Subscribed(s) && CacheSeen(s)
    ensures StartupSeen(Run(world, cfg, s, events))
    decreases |events|
  {
    if events != [] {
      StartupSeenThroughRun(world, cfg, s, events[..|events| - 1]);
      EveryRunKeepsInv(world, cfg, s, events[..|events| - 1]);
      StartupKeeps(world, cfg, Run(world, cfg, s, events[..|events| - 1]), events[|events| - 1]);
    }
  }

  /**
   Hydrating after subscribing closes the window before the startup refresh as well: while the task
   is still draining, a ready cache that is stale has a notification unsent or pending.
   */
  lemma StaleWhileDrainingHasNotification(world: World, cfg: BackoffConfig, s: Node, events: seq<Event>)
    requires Subscribed(s) && CacheSeen(s) && Run(world, cfg, s, events).task.Draining?
    ensures var t := Run(world, cfg, s, events);
            t.cache.Ready? && !ReadyForHead(t) ==> t.sent < t.Moves() || t.pos < t.sent
  {
    var t := Run(world, cfg, s, events);
    StartupSeenThroughRun(world, cfg, s, events);
    if t.cache.Ready? && t.pos == t.Moves() {
      var v :| t.pos <= v < |t.heads| && t.heads[v] == t.cache.snapshot.headHash;
      assert v == t.Moves();
    }
  }

  // ----- Convergence -----------------------------------------------------------------------------------------

  /** No more moves, every notification sent, the channel open, and the provider healthy. */
  predicate Quiet(s: Node) {
    s.Sane() && s.sent == s.Moves() && !s.closed && !s.task.Stopped?
  }

  /** The task's next step when the provider works; with both a notification and the timer due, `timerFirst` picks. */
  function TaskEvent(s: Node, timerFirst: bool): Event {
    match s.task
    case Draining => Receive
    case DrainLagged => Resubscribe
    case Lagged => Resubscribe
    case Signalling(_) => Signal(true)
    case Waiting =>
      if s.backoff.deadline.Some? && (timerFirst || s.pos == s.sent) then Timer else Receive
    case _ => RefreshStep(Works, None)
  }

  /** The refresh at `pc` will end with the cache ready if nothing moves and nothing fails. */
  predicate Clean(pc: Pc, head: Hash) {
    match pc
    case CheckCache(_, t) => t == head
    case Load(_, t) => t == head
    case Verify(_, t, loaded) => t == head && loaded.Ok?
    case Publish(result) => result.Ok?
    case Done(available) => available
    case _ => true
  }

  function RefreshRank(pc: Pc, head: Hash): nat
    requires ValidPc(pc)
  {
    if Clean(pc, head) then Rank(pc) else 40 + Rank(pc)
  }

  function TaskRank(s: Node): int
    requires Inv(s)
  {
    match s.task
    case Draining => 90
    case DrainLagged => 40
    case DrainRefresh(pc) => 95 + RefreshRank(pc, s.Head())
    case StartRefresh(pc) => 30 + RefreshRank(pc, s.Head())
    case Signalling(_) => 25
    case Waiting => if s.backoff.deadline.Some? then 20 else 0
    case Lagged => -50
    case Refreshing(pc, _) => RefreshRank(pc, s.Head())
    case Stopped => 0
  }

  /** Steps to rest at most. */
  function NodeRank(s: Node): nat
    requires Inv(s)
  {
    100 * (s.sent - s.pos) + TaskRank(s)
  }

  lemma RefreshProgress(world: World, cache: Cache, pc: Pc, head: Hash)
    requires ValidPc(pc) && !pc.Done?
    ensures var pc' := Advance(world, cache, pc, Observe(pc, head, Works, None)).0;
            && ValidPc(pc') && (Clean(pc, head) ==> Clean(pc', head)) && Rank(pc') < Rank(pc)
  {
    AdvanceTerminates(world, cache, pc, Observe(pc, head, Works, None));
  }

  /** The rank a task has on top of its refresh. */
  function Offset(t: Task): nat {
    match t
    case DrainRefresh(_) => 95
    case StartRefresh(_) => 30
    case _ => 0
  }

  lemma RankOfRefresh(s: Node)
    requires Inv(s) && PcOf(s.task).Some?
    ensures TaskRank(s) == Offset(s.task) + RefreshRank(PcOf(s.task).value, s.Head())
  {
  }

  /** Where a refresh leads ranks below its offset, plus 20 if it ends in failure. */
  lemma RankAfterRefresh(cfg: BackoffConfig, s: Node, available: bool)
    requires PcOf(s.task).Some? && Inv(AfterRefresh(cfg, s, available))
    ensures TaskRank(AfterRefresh(cfg, s, available)) <= Offset(s.task) + (if available then 0 else 20)
    ensures AfterRefresh(cfg, s, available).heads == s.heads && AfterRefresh(cfg, s, available).sent == s.sent
            && AfterRefresh(cfg, s, available).pos == s.pos && AfterRefresh(cfg, s, available).closed == s.closed
            && !AfterRefresh(cfg, s, available).task.Stopped?
  {
  }

  lemma RefreshTaskProgress(world: World, cfg: BackoffConfig, s: Node)
    requires Inv(s) && Quiet(s) && PcOf(s.task).Some?
    ensures var t := Next(world, cfg, s, RefreshStep(Works, None));
            Inv(t) && Quiet(t) && NodeRank(t) < NodeRank(s)
  {
    var pc := PcOf(s.task).value;
    var (pc', cache) := Advance(world, s.cache, pc, Observe(pc, s.Head(), Works, None));
    var t := s.(cache := cache, task := WithPc(s.task, pc'));
    NextKeeps(world, cfg, s, RefreshStep(Works, None));
    RefreshProgress(world, s.cache, pc, s.Head());
    RankOfRefresh(s);
    if pc'.Done? {
      RankAfterRefresh(cfg, t, pc'.available);
    } else {
      RankOfRefresh(t);
    }
  }

  lemma TaskProgress(world: World, cfg: BackoffConfig, s: Node, timerFirst: bool)
    requires Inv(s) && Quiet(s) && !Quiescent(s)
    ensures var t := Next(world, cfg, s, TaskEvent(s, timerFirst));
            Inv(t) && Quiet(t) && NodeRank(t) < NodeRank(s)
  {
    if PcOf(s.task).Some? {
      RefreshTaskProgress(world, cfg, s);
    } else {
      NextKeeps(world, cfg, s, TaskEvent(s, timerFirst));
    }
  }

  function RunTask(world: World, cfg: BackoffConfig, s: Node, choices: seq<bool>): (t: Node)
    requires s.Sane()
    ensures t.Sane()
    decreases |choices|
  {
    if choices == [] || Quiescent(s) then s
    else RunTask(world, cfg, Next(world, cfg, s, TaskEvent(s, choices[0])), choices[1..])
  }

  /**
   From any state of any run, once the chain is quiet and the provider works, the task comes to rest
   within a computed number of steps, with the cache ready for the head, however the select falls.
   */
  lemma {:induction false} TaskConverges(world: World, cfg: BackoffConfig, s: Node, choices: seq<bool>)
    requires Inv(s) && Quiet(s) && |choices| >= NodeRank(s)
    ensures var t := RunTask(world, cfg, s, choices);
            Quiescent(t) && ReadyForHead(t)
    decreases |choices|
  {
    if Quiescent(s) {
      QuiescentIsReady(s);
    } else {
      assert NodeRank(s) > 0 by { TaskProgress(world, cfg, s, true); }
      TaskProgress(world, cfg, s, choices[0]);
      TaskConverges(world, cfg, Next(world, cfg, s, TaskEvent(s, choices[0])), choices[1..]);
    }
  }
}
