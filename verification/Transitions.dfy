/** The one-time protocol updates of the Feynman, GalileoV2 and Tsuki forks. */
module Transitions {
  import opened MachineInts
  import opened WorldState

  const ORACLE: Address := 0x5300000000000000000000000000000000000002
  const NATIVE_DOGE_TOKEN: Address := 0x530000000000000000000000000000000000d09e

  const PENALTY_THRESHOLD_SLOT: Word := 9
  const PENALTY_FACTOR_SLOT: Word := 10
  const IS_FEYNMAN_SLOT: Word := 11
  const IS_GALILEO_SLOT: Word := 12
  const INITIAL_PENALTY: Word := 1_000_000_000
  const TOTAL_SUPPLY_SLOT: Word := 0
  const TOTAL_SUPPLY: Word := 0x0080_0000_0000_0000_0000_0000_0000_0000_0000_0000_0000_0000_0000_0000_0000_0000

  datatype Fork = Feynman | GalileoV2 | Tsuki

  function Target(fork: Fork): Address {
    if fork == Tsuki then NATIVE_DOGE_TOKEN else ORACLE
  }

  /** The test a transition starts with; when it holds the transition does nothing. */
  predicate Installed(fork: Fork, s: State) {
    match fork
    case Feynman => StorageOf(s, ORACLE, IS_FEYNMAN_SLOT) == 1
    case GalileoV2 => StorageOf(s, ORACLE, IS_GALILEO_SLOT) == 1
    case Tsuki => InfoOf(s, NATIVE_DOGE_TOKEN).nonce != 0 || InfoOf(s, NATIVE_DOGE_TOKEN).code != Empty
  }

  function NewInfo(fork: Fork, old': Info): Info {
    match fork
    case Feynman => old'.(code := FeynmanOracle)
    case GalileoV2 => old'.(code := GalileoV2Oracle)
    case Tsuki => old'.(nonce := 1, code := NativeDogeToken)
  }

  function SlotList(fork: Fork): seq<(Word, Word)> {
    match fork
    case Feynman =>
      [(PENALTY_THRESHOLD_SLOT, INITIAL_PENALTY), (PENALTY_FACTOR_SLOT, INITIAL_PENALTY), (IS_FEYNMAN_SLOT, 1)]
    case GalileoV2 => [(IS_GALILEO_SLOT, 1)]
    case Tsuki => [(TOTAL_SUPPLY_SLOT, TOTAL_SUPPLY)]
  }

  function SlotMap(slots: seq<(Word, Word)>): map<Word, Word> {
    if slots == [] then map[]
    else SlotMap(slots[..|slots| - 1])[slots[|slots| - 1].0 := slots[|slots| - 1].1]
  }

  /** The update of a transition; the empty update is the sign that there was nothing to do. */
  function TransitionUpdate(fork: Fork, s: State): Update {
    if Installed(fork, s) then map[]
    else
      map[Target(fork) := Change(NewInfo(fork, InfoOf(s, Target(fork))), SlotMap(SlotList(fork)), true, false, false)]
  }

  function Apply(fork: Fork, s: State): State { Commit(s, TransitionUpdate(fork, s)) }

  /** Database reads a transition makes, each of which may fail. */
  function Reads(fork: Fork, s: State): nat {
    if Installed(fork, s) then 1 else (if fork == Tsuki then 1 else 2) + |SlotList(fork)|
  }

  // ----- What a transition changes ---------------------------------------------------------------

  function Listed(fork: Fork): map<Word, Word> {
    match fork
    case Feynman => map[9 := 1_000_000_000, 10 := 1_000_000_000, 11 := 1]
    case GalileoV2 => map[12 := 1]
    case Tsuki => map[0 := 0x80_0000_0000_0000_0000_0000_0000_0000_0000_0000_0000_0000_0000_0000_0000_0000]
  }

  lemma SlotMapSnoc(slots: seq<(Word, Word)>, last: (Word, Word))
    ensures SlotMap(slots + [last]) == SlotMap(slots)[last.0 := last.1]
  {
    assert (slots + [last])[..|slots + [last]| - 1] == slots;
  }

  lemma SlotMapIsListed(fork: Fork)
    ensures SlotMap(SlotList(fork)) == Listed(fork)
  {
    match fork
    case Feynman =>
      var l := SlotList(Feynman);
      SlotMapSnoc([], l[0]);
      SlotMapSnoc([l[0]], l[1]);
      SlotMapSnoc([l[0], l[1]], l[2]);
      assert l == [l[0], l[1]] + [l[2]];
    case _ => SlotMapSnoc([], SlotList(fork)[0]);
  }

  /** What marks a transition as done: the oracle's flag, or a token account that is in use. */
  lemma InstalledIff(s: State)
    ensures Installed(Feynman, s) <==> StorageOf(s, 0x5300000000000000000000000000000000000002, 11) == 1
    ensures Installed(GalileoV2, s) <==> StorageOf(s, 0x5300000000000000000000000000000000000002, 12) == 1
    ensures Installed(Tsuki, s)
            <==> !(InfoOf(s, 0x530000000000000000000000000000000000d09e).nonce == 0
                   && InfoOf(s, 0x530000000000000000000000000000000000d09e).code == Empty)
  {
  }

  /**
   A transition that is not yet installed sets its code and its listed slots, and leaves every
   balance, every other account and every other slot alone. An installed one changes nothing.
   */
  lemma TransitionEffect(fork: Fork, s: State, a: Address, slot: Word)
    ensures Installed(fork, Apply(fork, s)) && (Apply(fork, s) == s <==> Installed(fork, s))
    ensures InfoOf(Apply(fork, s), a).balance == InfoOf(s, a).balance
    ensures a != Target(fork) ==> Lookup(Apply(fork, s), a) == Lookup(s, a)
    ensures a == Target(fork) && !Installed(fork, s) ==>
              var (before, after) := (InfoOf(s, a), InfoOf(Apply(fork, s), a));
              match fork
              case Feynman => after == Info(before.balance, before.nonce, FeynmanOracle)
              case GalileoV2 => after == Info(before.balance, before.nonce, GalileoV2Oracle)
              case Tsuki => after == Info(before.balance, 1, NativeDogeToken)
    ensures StorageOf(Apply(fork, s), a, slot)
            == if a == Target(fork) && !Installed(fork, s) && slot in Listed(fork) then Listed(fork)[slot]
               else StorageOf(s, a, slot)
  {
    SlotMapIsListed(fork);
    if Installed(fork, s) {
      CommitEmpty(s);
    } else {
      CommitAt(s, TransitionUpdate(fork, s), Target(fork));
    }
  }

  // ----- Blocks and chains --------------------------------------------------------------------------

  /** A block: the forks active at its timestamp, then the updates of the system call and the transactions. */
  datatype Block = Block(active: set<Fork>, rest: seq<Update>)

  function Stage(fork: Fork, active: set<Fork>, s: State): State {
    if fork in active then Apply(fork, s) else s
  }

  /** The state in which the stage of `fork` runs. */
  function BeforeStage(fork: Fork, active: set<Fork>, s: State): State {
    match fork
    case Feynman => s
    case GalileoV2 => Stage(Feynman, active, s)
    case Tsuki => Stage(GalileoV2, active, Stage(Feynman, active, s))
  }

  function PreBlock(active: set<Fork>, s: State): State {
    Stage(Tsuki, active, BeforeStage(Tsuki, active, s))
  }

  /** A stage keeps what is installed, and installs its own fork when it is active. */
  lemma StageInstalls(stage: Fork, fork: Fork, active: set<Fork>, s: State)
    requires Installed(fork, s) || (stage == fork && fork in active)
    ensures Installed(fork, Stage(stage, active, s))
  {
    TransitionEffect(stage, s, ORACLE, IS_FEYNMAN_SLOT);
    TransitionEffect(stage, s, ORACLE, IS_GALILEO_SLOT);
    TransitionEffect(stage, s, NATIVE_DOGE_TOKEN, TOTAL_SUPPLY_SLOT);
  }

  function RunBlock(s: State, b: Block): State {
    CommitAll(PreBlock(b.active, s), b.rest)
  }

  /** `trace` are the states of a chain: before its first block, and after each block. */
  predicate IsChain(trace: seq<State>, blocks: seq<Block>) {
    && |trace| == |blocks| + 1
    && forall i {:trigger blocks[i]} :: 0 <= i < |blocks| ==> trace[i + 1] == RunBlock(trace[i], blocks[i])
  }

  /** The transactions of the run never undo an installed transition. */
  ghost predicate RestKeeps(s: State, us: seq<Update>) {
    forall i, fork :: 0 <= i < |us| && Installed(fork, CommitAll(s, us[..i]))
                      ==> Installed(fork, Commit(CommitAll(s, us[..i]), us[i]))
  }

  /** No transaction of the chain undoes an installed transition. */
  ghost predicate ChainKeeps(trace: seq<State>, blocks: seq<Block>)
    requires |trace| == |blocks| + 1
  {
    forall i {:trigger blocks[i]} ::
      0 <= i < |blocks| ==> RestKeeps(PreBlock(blocks[i].active, trace[i]), blocks[i].rest)
  }

  lemma {:induction false} InstalledThroughRest(fork: Fork, s: State, us: seq<Update>, n: nat)
    requires n <= |us| && RestKeeps(s, us) && Installed(fork, s)
    ensures Installed(fork, CommitAll(s, us[..n]))
  {
    if n > 0 {
      InstalledThroughRest(fork, s, us, n - 1);
      assert us[..n][..n - 1] == us[..n - 1];
    }
  }

  lemma PreBlockInstalls(fork: Fork, active: set<Fork>, s: State)
    ensures Installed(fork, s) || fork in active ==> Installed(fork, PreBlock(active, s))
    ensures Installed(fork, s) ==> Installed(fork, BeforeStage(fork, active, s))
  {
    var s1 := Stage(Feynman, active, s);
    var s2 := Stage(GalileoV2, active, s1);
    if Installed(fork, s) || (fork == Feynman && fork in active) { StageInstalls(Feynman, fork, active, s); }
    if Installed(fork, s1) || (fork == GalileoV2 && fork in active) { StageInstalls(GalileoV2, fork, active, s1); }
    if Installed(fork, s2) || (fork == Tsuki && fork in active) { StageInstalls(Tsuki, fork, active, s2); }
  }

  lemma BlockInstalls(fork: Fork, s: State, b: Block)
    requires RestKeeps(PreBlock(b.active, s), b.rest)
    requires Installed(fork, s) || fork in b.active
    ensures Installed(fork, RunBlock(s, b))
  {
    PreBlockInstalls(fork, b.active, s);
    InstalledThroughRest(fork, PreBlock(b.active, s), b.rest, |b.rest|);
    assert b.rest[..|b.rest|] == b.rest;
  }

  lemma NextInstalls(fork: Fork, trace: seq<State>, blocks: seq<Block>, j: nat)
    requires IsChain(trace, blocks) && ChainKeeps(trace, blocks) && j < |blocks|
    requires Installed(fork, trace[j]) || fork in blocks[j].active
    ensures Installed(fork, trace[j + 1])
  {
    BlockInstalls(fork, trace[j], blocks[j]);
  }

  predicate StaysSet(marks: seq<bool>, k: nat) { k + 1 < |marks| && marks[k] ==> marks[k + 1] }

  lemma {:induction false} SetStaysSet(marks: seq<bool>, i: nat, j: nat)
    requires i <= j < |marks| && marks[i] && forall k :: 0 <= k < j ==> StaysSet(marks, k)
    ensures marks[j]
  {
    if i < j {
      SetStaysSet(marks, i, j - 1);
      assert StaysSet(marks, j - 1);
    }
  }

  lemma InstalledAfter(fork: Fork, trace: seq<State>, blocks: seq<Block>, i: nat, j: nat)
    requires IsChain(trace, blocks) && ChainKeeps(trace, blocks) && i < j <= |blocks| && fork in blocks[i].active
    ensures Installed(fork, trace[j])
  {
    var marks := seq(|trace|, k requires 0 <= k < |trace| => Installed(fork, trace[k]));
    forall k | 0 <= k < j ensures StaysSet(marks, k) {
      if marks[k] { NextInstalls(fork, trace, blocks, k); }
    }
    NextInstalls(fork, trace, blocks, i);
    SetStaysSet(marks, i + 1, j);
  }

  /** In any chain whose transactions keep the flags, a transition acts only at the first block where it is active. */
  lemma OnlyAtFirstActiveBlock(fork: Fork, trace: seq<State>, blocks: seq<Block>, i: nat, j: nat)
    requires IsChain(trace, blocks) && ChainKeeps(trace, blocks) && i < j < |blocks| && fork in blocks[i].active
    ensures TransitionUpdate(fork, BeforeStage(fork, blocks[j].active, trace[j])) == map[]
  {
    InstalledAfter(fork, trace, blocks, i, j);
    PreBlockInstalls(fork, blocks[j].active, trace[j]);
  }

  predicate Protocol(a: Address, slot: Word) {
    (a == ORACLE && 9 <= slot <= 12) || (a == NATIVE_DOGE_TOKEN && slot == 0)
  }

  lemma StageKeeps(stage: Fork, active: set<Fork>, s: State, a: Address, slot: Word)
    ensures InfoOf(Stage(stage, active, s), a).balance == InfoOf(s, a).balance
    ensures !Protocol(a, slot) ==> StorageOf(Stage(stage, active, s), a, slot) == StorageOf(s, a, slot)
    ensures a != Target(stage) ==> Lookup(Stage(stage, active, s), a) == Lookup(s, a)
    ensures a != NATIVE_DOGE_TOKEN ==> InfoOf(Stage(stage, active, s), a).nonce == InfoOf(s, a).nonce
  {
    TransitionEffect(stage, s, a, slot);
  }

  /** The stages of a block keep every balance, every other account and every slot but the five protocol slots. */
  lemma PreBlockKeeps(active: set<Fork>, s: State, a: Address, slot: Word)
    ensures InfoOf(PreBlock(active, s), a).balance == InfoOf(s, a).balance
    ensures !Protocol(a, slot) ==> StorageOf(PreBlock(active, s), a, slot) == StorageOf(s, a, slot)
    ensures a != ORACLE && a != NATIVE_DOGE_TOKEN ==> Lookup(PreBlock(active, s), a) == Lookup(s, a)
    ensures a != NATIVE_DOGE_TOKEN ==> InfoOf(PreBlock(active, s), a).nonce == InfoOf(s, a).nonce
  {
    var s1 := Stage(Feynman, active, s);
    StageKeeps(Feynman, active, s, a, slot);
    StageKeeps(GalileoV2, active, s1, a, slot);
    StageKeeps(Tsuki, active, Stage(GalileoV2, active, s1), a, slot);
  }

  // ----- Which oracle code a block ends on ------------------------------------------------------------

  function OracleCode(s: State): Code { InfoOf(s, ORACLE).code }

  /** How one active stage moves the two flags and the code of the oracle. */
  lemma StageOnOracle(stage: Fork, active: set<Fork>, s: State)
    requires stage in active || stage == Tsuki
    ensures var s' := Stage(stage, active, s);
            && (Installed(Feynman, s') <==> Installed(Feynman, s) || stage == Feynman)
            && (Installed(GalileoV2, s') <==> Installed(GalileoV2, s) || stage == GalileoV2)
            && OracleCode(s') == if stage == Tsuki || Installed(stage, s) then OracleCode(s)
                                 else if stage == Feynman then FeynmanOracle else GalileoV2Oracle
  {
    TransitionEffect(stage, s, ORACLE, IS_FEYNMAN_SLOT);
    TransitionEffect(stage, s, ORACLE, IS_GALILEO_SLOT);
  }

  /**
   With Feynman and GalileoV2 both active the stages leave the GalileoV2 oracle code in place,
   except when `isGalileo` is already set while `isFeynman` is not, or the code is another one.
   */
  lemma OracleEndsOnGalileoV2(active: set<Fork>, s: State)
    requires Feynman in active && GalileoV2 in active
    ensures OracleCode(PreBlock(active, s)) == GalileoV2Oracle
            <==> (Installed(GalileoV2, s) ==> Installed(Feynman, s) && OracleCode(s) == GalileoV2Oracle)
  {
    var s1 := Stage(Feynman, active, s);
    StageOnOracle(Feynman, active, s);
    StageOnOracle(GalileoV2, active, s1);
    StageOnOracle(Tsuki, active, Stage(GalileoV2, active, s1));
  }

  /** The case that is excluded: the Feynman stage then writes its older code over the GalileoV2 one. */
  lemma OracleCanGoBack()
    ensures var s := map[ORACLE := Account(Info(0, 0, GalileoV2Oracle), map[IS_GALILEO_SLOT := 1])];
            OracleCode(PreBlock({Feynman, GalileoV2}, s)) == FeynmanOracle
  {
    var s := map[ORACLE := Account(Info(0, 0, GalileoV2Oracle), map[IS_GALILEO_SLOT := 1])];
    StageOnOracle(Feynman, {Feynman, GalileoV2}, s);
    StageOnOracle(GalileoV2, {Feynman, GalileoV2}, Stage(Feynman, {Feynman, GalileoV2}, s));
  }

  predicate Settled(s: State) {
    Installed(GalileoV2, s) && Installed(Feynman, s) && OracleCode(s) == GalileoV2Oracle
  }

  ghost predicate KeepsSettled(s: State, us: seq<Update>) {
    forall i :: 0 <= i < |us| && Settled(CommitAll(s, us[..i])) ==> Settled(Commit(CommitAll(s, us[..i]), us[i]))
  }

  lemma {:induction false} SettledThroughRest(s: State, us: seq<Update>, n: nat)
    requires n <= |us| && KeepsSettled(s, us) && Settled(s)
    ensures Settled(CommitAll(s, us[..n]))
  {
    if n > 0 {
      SettledThroughRest(s, us, n - 1);
      assert us[..n][..n - 1] == us[..n - 1];
    }
  }

  lemma BlockSettles(s: State, b: Block)
    requires {Feynman, GalileoV2} <= b.active
    requires Installed(GalileoV2, s) ==> Settled(s)
    requires KeepsSettled(PreBlock(b.active, s), b.rest)
    ensures Settled(RunBlock(s, b))
  {
    var s1 := Stage(Feynman, b.active, s);
    StageOnOracle(Feynman, b.active, s);
    StageOnOracle(GalileoV2, b.active, s1);
    StageOnOracle(Tsuki, b.active, Stage(GalileoV2, b.active, s1));
    SettledThroughRest(PreBlock(b.active, s), b.rest, |b.rest|);
    assert b.rest[..|b.rest|] == b.rest;
  }

  /** No transaction of the chain changes the code of the oracle or clears its flags once both are set. */
  ghost predicate ChainKeepsSettled(trace: seq<State>, blocks: seq<Block>)
    requires |trace| == |blocks| + 1
  {
    forall i :: 0 <= i < |blocks| ==> KeepsSettled(PreBlock(blocks[i].active, trace[i]), blocks[i].rest)
  }

  /** Once both forks are active, every later block of the chain ends with the GalileoV2 code. */
  lemma {:induction false} OracleNeverGoesBack(trace: seq<State>, blocks: seq<Block>, n: nat)
    requires IsChain(trace, blocks) && ChainKeepsSettled(trace, blocks) && 0 < n <= |blocks|
    requires forall b <- blocks :: {Feynman, GalileoV2} <= b.active
    requires Installed(GalileoV2, trace[0]) ==> Settled(trace[0])
    ensures Settled(trace[n])
    decreases n
  {
    assert blocks[n - 1] in blocks;
    if n > 1 { OracleNeverGoesBack(trace, blocks, n - 1); }
    BlockSettles(trace[n - 1], blocks[n - 1]);
  }

  // ----- The database the transitions run against -------------------------------------------------------

  class Database {
    var state: State
    /** Reads that still succeed; the one after them fails. */
    var readsLeft: nat
    /** Every update committed so far, in order. */
    var commits: seq<Update>

    constructor (state: State, readsLeft: nat)
      ensures this.state == state && this.readsLeft == readsLeft && commits == []
    {
      this.state, this.readsLeft, commits := state, readsLeft, [];
    }

    method ReadStorage(a: Address, slot: Word) returns (r: Option<Word>)
      modifies this`readsLeft
      ensures old(readsLeft) == 0 ==> r == None && readsLeft == 0
      ensures old(readsLeft) > 0 ==> r == Some(StorageOf(state, a, slot)) && readsLeft == old(readsLeft) - 1
    {
      if readsLeft == 0 { return None; }
      readsLeft := readsLeft - 1;
      return Some(StorageOf(state, a, slot));
    }

    method ReadInfo(a: Address) returns (r: Option<Info>)
      modifies this`readsLeft
      ensures old(readsLeft) == 0 ==> r == None && readsLeft == 0
      ensures old(readsLeft) > 0 ==> r == Some(InfoOf(state, a)) && readsLeft == old(readsLeft) - 1
    {
      if readsLeft == 0 { return None; }
      readsLeft := readsLeft - 1;
      return Some(InfoOf(state, a));
    }

    method CommitUpdate(u: Update)
      modifies this`state, this`commits
      ensures state == Commit(old(state), u) && commits == old(commits) + [u]
    {
      state := Commit(state, u);
      commits := commits + [u];
    }

    /** `commit_account_update`: reads every original slot, then commits the account. */
    method CommitAccountUpdate(a: Address, info: Info, slots: seq<(Word, Word)>) returns (r: Option<Update>)
      modifies this
      ensures r.Some? <==> |slots| <= old(readsLeft)
      ensures r.Some? ==> && r.value == map[a := Change(info, SlotMap(slots), true, false, false)]
                          && state == Commit(old(state), r.value) && commits == old(commits) + [r.value]
                          && readsLeft == old(readsLeft) - |slots|
      ensures r.None? ==> state == old(state) && commits == old(commits) && readsLeft == 0
    {
      var storage: map<Word, Word> := map[];
      for i := 0 to |slots|
        invariant storage == SlotMap(slots[..i])
        invariant state == old(state) && commits == old(commits)
        invariant i <= old(readsLeft) && readsLeft == old(readsLeft) - i
      {
        var (slot, present) := slots[i];
        var original := ReadStorage(a, slot);
        if original.None? { return None; }
        assert slots[..i + 1][..i] == slots[..i];
        storage := storage[slot := present];
      }
      assert slots[..|slots|] == slots;
      var u := map[a := Change(info, storage, true, false, false)];
      CommitUpdate(u);
      return Some(u);
    }

    /** `apply_feynman_hard_fork`, `apply_galileo_v2_hard_fork` and `apply_tsuki_hard_fork`. */
    method ApplyHardFork(fork: Fork) returns (r: Option<Update>)
      modifies this
      ensures r.Some? <==> Reads(fork, old(state)) <= old(readsLeft)
      ensures r.Some? ==> && r.value == TransitionUpdate(fork, old(state))
                          && state == Apply(fork, old(state))
                          && commits == old(commits) + (if r.value == map[] then [] else [r.value])
                          && readsLeft == old(readsLeft) - Reads(fork, old(state))
      ensures r.None? ==> state == old(state) && commits == old(commits)
    {
      CommitEmpty(state);
      var info: Info;
      if fork == Tsuki {
        var token := ReadInfo(NATIVE_DOGE_TOKEN);
        if token.None? { return None; }
        info := token.value;
        if info.nonce != 0 || info.code != Empty { return Some(map[]); }
      } else {
        var flag := ReadStorage(ORACLE, if fork == Feynman then IS_FEYNMAN_SLOT else IS_GALILEO_SLOT);
        if flag.None? { return None; }
        if flag.value == 1 { return Some(map[]); }
        var oracle := ReadInfo(ORACLE);
        if oracle.None? { return None; }
        info := oracle.value;
      }
      r := CommitAccountUpdate(Target(fork), NewInfo(fork, info), SlotList(fork));
    }
  }
}
