/**
 The meter of contract code in a candidate block: code is counted once per block by hash, each
 authorization reserves 23 bytes, and a rejected transaction leaves no trace.
 */
module CodeWitness {
  import opened MachineInts

  type Hash = nat

  datatype Limit = CodeBytes | ExecutionSteps

  /** What the inspector does to the meter. */
  datatype Op =
    | Reserve(bytes: U64)
    | Record(hash: Hash, bytes: U64)
    | Tick

  datatype Meter = Meter(
    maxCodeBytes: U64, maxSteps: U64,
    accepted: map<Hash, U64>, pending: map<Hash, U64>,
    acceptedBytes: U64, pendingBytes: U64, transactionBytes: U64,
    steps: U64, exceeded: Option<Limit>, initialized: bool)
  {
    function Insert(limit: Limit): Meter {
      if exceeded.None? then this.(exceeded := Some(limit)) else this
    }

    function CheckBudget(): Meter {
      if SatAdd(acceptedBytes, pendingBytes) > maxCodeBytes then Insert(CodeBytes) else this
    }

    function Apply(op: Op): Meter {
      match op
      case Reserve(bytes) =>
        this.(pendingBytes := SatAdd(pendingBytes, bytes),
              transactionBytes := SatAdd(transactionBytes, bytes)).CheckBudget()
      case Record(hash, bytes) =>
        if bytes == 0 || hash in pending then this
        else
          this.(pending := pending[hash := bytes],
                transactionBytes := SatAdd(transactionBytes, bytes),
                pendingBytes := if hash in accepted then pendingBytes else SatAdd(pendingBytes, bytes)).CheckBudget()
      case Tick =>
        var m := if steps >= maxSteps then Insert(ExecutionSteps) else this;
        if m.exceeded.Some? then m else m.(steps := SatAdd(steps, 1))
    }

    /** `begin_transaction` and `reject_transaction`. */
    function Reset(): Meter {
      this.(pending := map[], pendingBytes := 0, transactionBytes := 0, steps := 0,
            exceeded := None, initialized := false)
    }

    /** `accept_transaction` when no limit was exceeded. */
    function Accept(): Meter {
      this.(pending := map[], accepted := accepted + pending,
            acceptedBytes := SatAdd(acceptedBytes, pendingBytes), pendingBytes := 0)
    }
  }

  function NewMeter(maxCodeBytes: U64, maxSteps: U64): Meter {
    Meter(maxCodeBytes, maxSteps, map[], map[], 0, 0, 0, 0, None, false)
  }

  function RunOps(m: Meter, ops: seq<Op>): Meter {
    if ops == [] then m else RunOps(m, ops[..|ops| - 1]).Apply(ops[|ops| - 1])
  }

  /** The first hook of a transaction reserves for its authorizations and records the loaded codes. */
  function InitialOps(authorizations: U64, codes: seq<(Hash, U64)>): seq<Op> {
    [Reserve(Min(23 * authorizations, U64_MAX))] + RecordOps(codes)
  }

  function RecordOps(codes: seq<(Hash, U64)>): (ops: seq<Op>)
    ensures |ops| == |codes|
  {
    if codes == [] then [] else RecordOps(codes[..|codes| - 1]) + [Record(codes[|codes| - 1].0, codes[|codes| - 1].1)]
  }

  // ----- What the operations of a transaction add up to ---------------------------------------

  /** The hashes of the nonempty codes recorded. */
  function Codes(ops: seq<Op>): set<Hash> {
    if ops == [] then {}
    else
      var last := ops[|ops| - 1];
      Codes(ops[..|ops| - 1]) + if last.Record? && last.bytes > 0 then {last.hash} else {}
  }

  function Reserved(ops: seq<Op>): nat {
    if ops == [] then 0
    else Reserved(ops[..|ops| - 1]) + if ops[|ops| - 1].Reserve? then ops[|ops| - 1].bytes else 0
  }

  function Ticks(ops: seq<Op>): nat {
    if ops == [] then 0
    else Ticks(ops[..|ops| - 1]) + if ops[|ops| - 1].Tick? then 1 else 0
  }

  /** A code hash determines its code, and so the size that is recorded with it. */
  predicate Consistent(ops: seq<Op>, size: Hash -> U64) {
    forall op <- ops :: op.Record? ==> op.bytes == size(op.hash)
  }

  ghost function Total(codes: set<Hash>, size: Hash -> U64): nat {
    if codes == {} then 0
    else
      var h :| h in codes;
      size(h) + Total(codes - {h}, size)
  }

  lemma {:induction false} TotalInsert(codes: set<Hash>, h: Hash, size: Hash -> U64)
    requires h !in codes
    ensures Total(codes + {h}, size) == Total(codes, size) + size(h)
    decreases |codes|
  {
    var all := codes + {h};
    var g :| g in all && Total(all, size) == size(g) + Total(all - {g}, size);
    if g == h {
      assert all - {g} == codes;
    } else {
      var less := codes - {g};
      assert all - {g} == less + {h};
      TotalInsert(less, h, size);
      assert less + {g} == codes;
      TotalInsert(less, g, size);
    }
  }

  lemma {:induction false} TotalUnion(a: set<Hash>, b: set<Hash>, size: Hash -> U64)
    requires a !! b
    ensures Total(a + b, size) == Total(a, size) + Total(b, size)
    decreases |b|
  {
    if b == {} {
      assert a + b == a;
    } else {
      var h :| h in b;
      var rest := b - {h};
      assert a + b == (a + rest) + {h} && b == rest + {h};
      TotalUnion(a, rest, size);
      TotalInsert(a + rest, h, size);
      TotalInsert(rest, h, size);
    }
  }

  // ----- The verdict on one transaction ---------------------------------------------------------

  function Sat(n: nat): U64 { Min(n, U64_MAX) }

  /** Block code the transaction adds: new hashes once, and its reservation. */
  ghost function NewBytes(m: Meter, ops: seq<Op>, size: Hash -> U64): nat {
    Total(Codes(ops) - m.accepted.Keys, size) + Reserved(ops)
  }

  /** `r` has metered, on top of the block `m`, `ticks` steps and the `codes` and bytes given. */
  ghost predicate Shows(m: Meter, r: Meter, codes: set<Hash>, touched: nat, added: nat, ticks: nat, size: Hash -> U64) {
    && r.maxCodeBytes == m.maxCodeBytes && r.maxSteps == m.maxSteps
    && r.accepted == m.accepted && r.acceptedBytes == m.acceptedBytes
    && r.pending.Keys == codes && (forall h <- r.pending :: r.pending[h] == size(h))
    && r.pendingBytes == Sat(added) && r.transactionBytes == Sat(touched)
    && r.steps <= r.maxSteps
    && (r.exceeded.None? ==> r.steps == ticks)
    && (m.acceptedBytes <= m.maxCodeBytes < U64_MAX ==>
          (r.exceeded.None? <==> m.acceptedBytes + added <= m.maxCodeBytes && ticks <= m.maxSteps))
    && (m.maxCodeBytes == U64_MAX ==> (r.exceeded.None? <==> ticks <= m.maxSteps))
    && (r.exceeded == Some(CodeBytes) ==> m.acceptedBytes + added > m.maxCodeBytes)
    && (r.exceeded == Some(ExecutionSteps) ==> ticks > m.maxSteps)
  }

  /** `r` has metered `ops` on top of the block `m`. */
  ghost predicate Metered(m: Meter, r: Meter, ops: seq<Op>, size: Hash -> U64) {
    Shows(m, r, Codes(ops), Total(Codes(ops), size) + Reserved(ops), NewBytes(m, ops, size), Ticks(ops), size)
  }

  ghost predicate AddsCode(prefix: seq<Op>, op: Op) {
    op.Record? && op.bytes > 0 && op.hash !in Codes(prefix)
  }

  /** How one more operation changes the sums. */
  lemma SumsAppend(m: Meter, prefix: seq<Op>, op: Op, size: Hash -> U64)
    requires op.Record? ==> op.bytes == size(op.hash)
    ensures var ops := prefix + [op];
            && Codes(ops) == Codes(prefix) + (if AddsCode(prefix, op) then {op.hash} else {})
            && Reserved(ops) == Reserved(prefix) + (if op.Reserve? then op.bytes else 0)
            && Ticks(ops) == Ticks(prefix) + (if op.Tick? then 1 else 0)
            && Total(Codes(ops), size) == Total(Codes(prefix), size) + (if AddsCode(prefix, op) then op.bytes else 0)
            && NewBytes(m, ops, size) == NewBytes(m, prefix, size) + (if op.Reserve? then op.bytes else 0)
                 + (if AddsCode(prefix, op) && op.hash !in m.accepted then op.bytes else 0)
  {
    var ops := prefix + [op];
    assert ops[..|ops| - 1] == prefix && ops[|ops| - 1] == op;
    var old' := Codes(prefix) - m.accepted.Keys;
    if AddsCode(prefix, op) {
      TotalInsert(Codes(prefix), op.hash, size);
      assert Codes(ops) == Codes(prefix) + {op.hash};
      if op.hash in m.accepted.Keys {
        assert Codes(ops) - m.accepted.Keys == old';
      } else {
        TotalInsert(old', op.hash, size);
        assert Codes(ops) - m.accepted.Keys == old' + {op.hash};
      }
    } else {
      assert Codes(ops) == Codes(prefix);
    }
  }

  lemma ShowsReserve(m: Meter, r: Meter, codes: set<Hash>, touched: nat, added: nat, ticks: nat,
                     bytes: U64, size: Hash -> U64)
    requires Shows(m, r, codes, touched, added, ticks, size)
    ensures Shows(m, r.Apply(Reserve(bytes)), codes, touched + bytes, added + bytes, ticks, size)
  {
  }

  lemma ShowsNewCode(m: Meter, r: Meter, codes: set<Hash>, touched: nat, added: nat, ticks: nat,
                     hash: Hash, bytes: U64, size: Hash -> U64)
    requires Shows(m, r, codes, touched, added, ticks, size)
    requires hash !in codes && 0 < bytes == size(hash)
    ensures Shows(m, r.Apply(Record(hash, bytes)), codes + {hash}, touched + bytes,
                  added + (if hash in m.accepted then 0 else bytes), ticks, size)
  {
    var pending := r.pending[hash := bytes];
    assert pending.Keys == codes + {hash};
    assert r.Apply(Record(hash, bytes)).pending == pending;
  }

  lemma ShowsTick(m: Meter, r: Meter, codes: set<Hash>, touched: nat, added: nat, ticks: nat, size: Hash -> U64)
    requires Shows(m, r, codes, touched, added, ticks, size)
    ensures Shows(m, r.Apply(Tick), codes, touched, added, ticks + 1, size)
  {
  }

  lemma ShowsKnownCode(m: Meter, r: Meter, codes: set<Hash>, touched: nat, added: nat, ticks: nat,
                       hash: Hash, bytes: U64, size: Hash -> U64)
    requires Shows(m, r, codes, touched, added, ticks, size)
    requires hash in codes || bytes == 0
    ensures Shows(m, r.Apply(Record(hash, bytes)), codes, touched, added, ticks, size)
  {
    assert r.Apply(Record(hash, bytes)) == r;
  }

  lemma MeteredRecord(m: Meter, r: Meter, prefix: seq<Op>, op: Op, size: Hash -> U64)
    requires Metered(m, r, prefix, size) && op.Record? && op.bytes == size(op.hash)
    ensures Metered(m, r.Apply(op), prefix + [op], size)
  {
    SumsAppend(m, prefix, op, size);
    var codes, added, ticks := Codes(prefix), NewBytes(m, prefix, size), Ticks(prefix);
    var touched := Total(codes, size) + Reserved(prefix);
    if AddsCode(prefix, op) {
      ShowsNewCode(m, r, codes, touched, added, ticks, op.hash, op.bytes, size);
    } else {
      ShowsKnownCode(m, r, codes, touched, added, ticks, op.hash, op.bytes, size);
    }
  }

  lemma MeteredStep(m: Meter, r: Meter, prefix: seq<Op>, op: Op, size: Hash -> U64)
    requires Metered(m, r, prefix, size) && (op.Record? ==> op.bytes == size(op.hash))
    ensures Metered(m, r.Apply(op), prefix + [op], size)
  {
    if op.Record? {
      MeteredRecord(m, r, prefix, op, size);
    } else {
      SumsAppend(m, prefix, op, size);
      var codes, added, ticks := Codes(prefix), NewBytes(m, prefix, size), Ticks(prefix);
      var touched := Total(codes, size) + Reserved(prefix);
      if op.Reserve? {
        ShowsReserve(m, r, codes, touched, added, ticks, op.bytes, size);
      } else {
        ShowsTick(m, r, codes, touched, added, ticks, size);
      }
    }
  }

  /**
   The counters of a transaction are the exact sums, cut at the type's maximum. Below an unlimited
   budget it passes exactly when the code and the steps it needs fit, whatever the order and the
   repetitions of its accesses; an unlimited budget never stops it for its code.
   */
  lemma {:induction false} OpsAreMetered(m: Meter, ops: seq<Op>, size: Hash -> U64)
    requires Consistent(ops, size) && m.acceptedBytes <= m.maxCodeBytes
    ensures Metered(m, RunOps(m.Reset(), ops), ops, size)
  {
    if ops == [] {
      assert Codes(ops) - m.accepted.Keys == {};
    } else {
      var prefix, op := ops[..|ops| - 1], ops[|ops| - 1];
      OpsAreMetered(m, prefix, size);
      assert ops == prefix + [op];
      MeteredStep(m, RunOps(m.Reset(), prefix), prefix, op, size);
    }
  }

  /** The limit that is reported is the first one that was exceeded. */
  lemma {:induction false} FirstLimitIsKept(m: Meter, ops: seq<Op>, i: nat)
    requires i <= |ops| && RunOps(m, ops[..i]).exceeded.Some?
    ensures RunOps(m, ops).exceeded == RunOps(m, ops[..i]).exceeded
    decreases |ops|
  {
    if i < |ops| {
      assert ops[..|ops| - 1][..i] == ops[..i];
      FirstLimitIsKept(m, ops[..|ops| - 1], i);
    } else {
      assert ops[..i] == ops;
    }
  }

  /** `candidate_code_bytes`. */
  function CandidateBytes(m: Meter): U64 { SatAdd(m.acceptedBytes, m.pendingBytes) }

  /** Accepting turns what is pending into what is accepted, and the candidate's bytes into the block's. */
  lemma AcceptMergesPending(m: Meter)
    ensures var a := m.Accept();
            && a.pending == map[] && a.accepted.Keys == m.accepted.Keys + m.pending.Keys
            && CandidateBytes(a) == a.acceptedBytes == CandidateBytes(m)
            && a.steps == m.steps && a.transactionBytes == m.transactionBytes
            && a.maxCodeBytes == m.maxCodeBytes && a.maxSteps == m.maxSteps
  {
  }

  /** Between transactions the meter is a new one on top of the accepted code. */
  lemma ResetForgetsCandidate(m: Meter)
    ensures m.Reset() == NewMeter(m.maxCodeBytes, m.maxSteps).(accepted := m.accepted, acceptedBytes := m.acceptedBytes)
  {
  }

  // ----- Blocks of transactions -----------------------------------------------------------------

  /** Meters one candidate and keeps or drops it. */
  function Try(m: Meter, ops: seq<Op>): (Meter, bool) {
    var r := RunOps(m.Reset(), ops);
    if r.exceeded.None? then (r.Accept(), true) else (r.Reset(), false)
  }

  function AfterAll(m: Meter, txs: seq<seq<Op>>): Meter {
    if txs == [] then m else Try(AfterAll(m, txs[..|txs| - 1]), txs[|txs| - 1]).0
  }

  /** The candidates that were kept, in order. */
  function Kept(m: Meter, txs: seq<seq<Op>>): seq<seq<Op>> {
    if txs == [] then []
    else
      var prefix, last := txs[..|txs| - 1], txs[|txs| - 1];
      Kept(m, prefix) + if Try(AfterAll(m, prefix), last).1 then [last] else []
  }

  function CodesOfAll(txs: seq<seq<Op>>): set<Hash> {
    if txs == [] then {} else CodesOfAll(txs[..|txs| - 1]) + Codes(txs[|txs| - 1])
  }

  function ReservedByAll(txs: seq<seq<Op>>): nat {
    if txs == [] then 0 else ReservedByAll(txs[..|txs| - 1]) + Reserved(txs[|txs| - 1])
  }

  ghost function BlockBytes(txs: seq<seq<Op>>, size: Hash -> U64): nat {
    Total(CodesOfAll(txs), size) + ReservedByAll(txs)
  }

  ghost predicate Accounted(m: Meter, kept: seq<seq<Op>>, size: Hash -> U64) {
    && m.accepted.Keys == CodesOfAll(kept) && (forall h <- m.accepted :: m.accepted[h] == size(h))
    && m.acceptedBytes == BlockBytes(kept, size) <= m.maxCodeBytes
  }

  /** Adding a transaction to a block adds its new codes and its reservation. */
  lemma BlockBytesAppend(kept: seq<seq<Op>>, ops: seq<Op>, size: Hash -> U64)
    ensures CodesOfAll(kept + [ops]) == CodesOfAll(kept) + Codes(ops)
    ensures BlockBytes(kept + [ops], size)
            == BlockBytes(kept, size) + Total(Codes(ops) - CodesOfAll(kept), size) + Reserved(ops)
  {
    var all := kept + [ops];
    assert all[..|all| - 1] == kept;
    TotalUnion(CodesOfAll(kept), Codes(ops) - CodesOfAll(kept), size);
    assert CodesOfAll(kept) + (Codes(ops) - CodesOfAll(kept)) == CodesOfAll(kept) + Codes(ops);
  }

  lemma TryIsAccounted(m: Meter, kept: seq<seq<Op>>, ops: seq<Op>, size: Hash -> U64)
    requires m.maxCodeBytes < U64_MAX && Consistent(ops, size) && Accounted(m, kept, size)
    ensures var (m', ok) := Try(m, ops);
            && (ok <==> BlockBytes(kept + [ops], size) <= m.maxCodeBytes && Ticks(ops) <= m.maxSteps)
            && Accounted(m', if ok then kept + [ops] else kept, size)
            && m'.maxCodeBytes == m.maxCodeBytes && m'.maxSteps == m.maxSteps
  {
    OpsAreMetered(m, ops, size);
    BlockBytesAppend(kept, ops, size);
  }

  /**
   In every reachable state the accepted bytes are the sizes of the union of the accepted
   transactions' codes plus their reservations, and within the budget.
   */
  lemma {:induction false} BlockIsAccounted(maxCodeBytes: U64, maxSteps: U64, txs: seq<seq<Op>>, size: Hash -> U64)
    requires maxCodeBytes < U64_MAX && forall ops <- txs :: Consistent(ops, size)
    ensures var m := NewMeter(maxCodeBytes, maxSteps);
            && Accounted(AfterAll(m, txs), Kept(m, txs), size)
            && AfterAll(m, txs).maxCodeBytes == maxCodeBytes && AfterAll(m, txs).maxSteps == maxSteps
  {
    if txs != [] {
      var m := NewMeter(maxCodeBytes, maxSteps);
      var prefix, last := txs[..|txs| - 1], txs[|txs| - 1];
      BlockIsAccounted(maxCodeBytes, maxSteps, prefix, size);
      TryIsAccounted(AfterAll(m, prefix), Kept(m, prefix), last, size);
      assert Kept(m, prefix) + [] == Kept(m, prefix);
    }
  }

  lemma BlockBytesMono(txs: seq<seq<Op>>, size: Hash -> U64)
    requires txs != []
    ensures BlockBytes(txs[..|txs| - 1], size) <= BlockBytes(txs, size)
  {
    BlockBytesAppend(txs[..|txs| - 1], txs[|txs| - 1], size);
    assert txs == txs[..|txs| - 1] + [txs[|txs| - 1]];
  }

  lemma {:induction false} KeptIsNoLonger(m: Meter, txs: seq<seq<Op>>)
    ensures |Kept(m, txs)| <= |txs|
  {
    if txs != [] { KeptIsNoLonger(m, txs[..|txs| - 1]); }
  }

  /** A whole list is accepted exactly when its union fits and each transaction keeps to the allowance. */
  lemma {:induction false} AllKeptIff(maxCodeBytes: U64, maxSteps: U64, txs: seq<seq<Op>>, size: Hash -> U64)
    requires maxCodeBytes < U64_MAX && forall ops <- txs :: Consistent(ops, size)
    ensures Kept(NewMeter(maxCodeBytes, maxSteps), txs) == txs
            <==> BlockBytes(txs, size) <= maxCodeBytes && forall ops <- txs :: Ticks(ops) <= maxSteps
  {
    if txs != [] {
      var m := NewMeter(maxCodeBytes, maxSteps);
      var prefix, last := txs[..|txs| - 1], txs[|txs| - 1];
      assert txs == prefix + [last];
      AllKeptIff(maxCodeBytes, maxSteps, prefix, size);
      BlockIsAccounted(maxCodeBytes, maxSteps, prefix, size);
      KeptIsNoLonger(m, prefix);
      BlockBytesMono(txs, size);
      TryIsAccounted(AfterAll(m, prefix), Kept(m, prefix), last, size);
      if Kept(m, txs) == txs {
        assert Kept(m, prefix) == Kept(m, txs)[..|txs| - 1] == prefix;
      }
    }
  }

  // ----- Authorizations ----------------------------------------------------------------------------

  /** A transaction as the inspector sees it: authorizations, codes loaded first, and the operations after. */
  datatype Profile = Profile(authorizations: U64, loaded: seq<(Hash, U64)>, rest: seq<Op>)

  /** Only the first hook reserves. */
  predicate Plain(p: Profile) { forall op <- p.rest :: !op.Reserve? }

  function OpsOf(p: Profile): seq<Op> { InitialOps(p.authorizations, p.loaded) + p.rest }

  function OpsOfAll(ps: seq<Profile>): (txs: seq<seq<Op>>)
    ensures |txs| == |ps| && forall i :: 0 <= i < |ps| ==> txs[i] == OpsOf(ps[i])
  {
    if ps == [] then [] else OpsOfAll(ps[..|ps| - 1]) + [OpsOf(ps[|ps| - 1])]
  }

  lemma {:induction false} ReservedAppend(ops: seq<Op>, more: seq<Op>)
    requires forall op <- more :: !op.Reserve?
    ensures Reserved(ops + more) == Reserved(ops)
    decreases |more|
  {
    if more == [] {
      assert ops + more == ops;
    } else {
      var n := |more| - 1;
      assert (ops + more)[..|ops + more| - 1] == ops + more[..n] && more[n] in more;
      ReservedAppend(ops, more[..n]);
    }
  }

  lemma {:induction false} RecordsDoNotReserve(codes: seq<(Hash, U64)>)
    ensures forall op <- RecordOps(codes) :: !op.Reserve?
  {
    if codes != [] { RecordsDoNotReserve(codes[..|codes| - 1]); }
  }

  /** A transaction reserves 23 bytes for each of its authorizations, and nothing else. */
  lemma ReservedByTransaction(p: Profile)
    requires Plain(p)
    ensures Reserved(OpsOf(p)) == Min(23 * p.authorizations, U64_MAX)
  {
    var first := [Op.Reserve(Min(23 * p.authorizations, U64_MAX))];
    RecordsDoNotReserve(p.loaded);
    ReservedAppend(first, RecordOps(p.loaded));
    ReservedAppend(first + RecordOps(p.loaded), p.rest);
    assert |first[..0]| == 0;
  }

  /** The profiles whose transactions were kept. */
  function KeptProfiles(m: Meter, ps: seq<Profile>): seq<Profile> {
    if ps == [] then []
    else
      var prefix, last := ps[..|ps| - 1], ps[|ps| - 1];
      KeptProfiles(m, prefix) + if Try(AfterAll(m, OpsOfAll(prefix)), OpsOf(last)).1 then [last] else []
  }

  lemma OpsOfAllSnoc(ps: seq<Profile>, p: Profile)
    ensures OpsOfAll(ps + [p]) == OpsOfAll(ps) + [OpsOf(p)]
  {
    assert (ps + [p])[..|ps + [p]| - 1] == ps;
  }

  lemma KeptSnoc(m: Meter, txs: seq<seq<Op>>, ops: seq<Op>)
    ensures Kept(m, txs + [ops]) == if Try(AfterAll(m, txs), ops).1 then Kept(m, txs) + [ops] else Kept(m, txs)
  {
    assert (txs + [ops])[..|txs + [ops]| - 1] == txs;
  }

  lemma KeptProfilesSnoc(m: Meter, ps: seq<Profile>, p: Profile)
    ensures KeptProfiles(m, ps + [p])
            == if Try(AfterAll(m, OpsOfAll(ps)), OpsOf(p)).1 then KeptProfiles(m, ps) + [p] else KeptProfiles(m, ps)
  {
    assert (ps + [p])[..|ps + [p]| - 1] == ps;
  }

  lemma KeptOfSnoc(m: Meter, ps: seq<Profile>, p: Profile, kept: seq<Profile>)
    requires Kept(m, OpsOfAll(ps)) == OpsOfAll(kept)
    ensures Kept(m, OpsOfAll(ps + [p]))
            == OpsOfAll(if Try(AfterAll(m, OpsOfAll(ps)), OpsOf(p)).1 then kept + [p] else kept)
  {
    OpsOfAllSnoc(ps, p);
    KeptSnoc(m, OpsOfAll(ps), OpsOf(p));
    OpsOfAllSnoc(kept, p);
  }

  lemma KeptOneMore(m: Meter, ps: seq<Profile>, p: Profile)
    requires Kept(m, OpsOfAll(ps)) == OpsOfAll(KeptProfiles(m, ps))
    ensures Kept(m, OpsOfAll(ps + [p])) == OpsOfAll(KeptProfiles(m, ps + [p]))
  {
    KeptOfSnoc(m, ps, p, KeptProfiles(m, ps));
    KeptProfilesSnoc(m, ps, p);
  }

  lemma {:induction false} KeptAreOfProfiles(m: Meter, ps: seq<Profile>)
    ensures Kept(m, OpsOfAll(ps)) == OpsOfAll(KeptProfiles(m, ps))
  {
    if ps != [] {
      var prefix, last := ps[..|ps| - 1], ps[|ps| - 1];
      assert ps == prefix + [last];
      KeptAreOfProfiles(m, prefix);
      KeptOneMore(m, prefix, last);
    }
  }

  lemma {:induction false} KeptProfilesAreGiven(m: Meter, ps: seq<Profile>)
    ensures forall p <- KeptProfiles(m, ps) :: p in ps
  {
    if ps != [] { KeptProfilesAreGiven(m, ps[..|ps| - 1]); }
  }

  function Authorizations(ps: seq<Profile>): nat {
    if ps == [] then 0 else Authorizations(ps[..|ps| - 1]) + ps[|ps| - 1].authorizations
  }

  /** Short of the type's maximum, the reservations are 23 bytes for each authorization. */
  lemma {:induction false} ReservedPerAuthorization(ps: seq<Profile>)
    requires (forall p <- ps :: Plain(p)) && ReservedByAll(OpsOfAll(ps)) < U64_MAX
    ensures ReservedByAll(OpsOfAll(ps)) == 23 * Authorizations(ps)
  {
    if ps != [] {
      var n := |ps| - 1;
      assert OpsOfAll(ps)[..n] == OpsOfAll(ps[..n]) && ps[n] in ps;
      ReservedPerAuthorization(ps[..n]);
      ReservedByTransaction(ps[n]);
    }
  }

  /** The nonempty codes that were loaded before the first hook, or recorded by a later one. */
  function Touched(p: Profile): set<Hash> {
    (set c | c in p.loaded && c.1 > 0 :: c.0) + (set op | op in p.rest && op.Record? && op.bytes > 0 :: op.hash)
  }

  function TouchedByAll(ps: seq<Profile>): set<Hash> {
    if ps == [] then {} else TouchedByAll(ps[..|ps| - 1]) + Touched(ps[|ps| - 1])
  }

  predicate Sized(p: Profile, size: Hash -> U64) {
    (forall c <- p.loaded :: c.1 == size(c.0)) && (forall op <- p.rest :: op.Record? ==> op.bytes == size(op.hash))
  }

  lemma {:induction false} CodesAre(ops: seq<Op>)
    ensures Codes(ops) == set op | op in ops && op.Record? && op.bytes > 0 :: op.hash
  {
    if ops != [] {
      CodesAre(ops[..|ops| - 1]);
      assert ops == ops[..|ops| - 1] + [ops[|ops| - 1]];
    }
  }

  lemma {:induction false} RecordOpsAre(codes: seq<(Hash, U64)>)
    ensures forall i :: 0 <= i < |codes| ==> RecordOps(codes)[i] == Record(codes[i].0, codes[i].1)
  {
    if codes != [] { RecordOpsAre(codes[..|codes| - 1]); }
  }

  /** The first hook records exactly the nonempty codes that were loaded, with their sizes, and takes no step. */
  lemma InitialOpsRecordLoaded(authorizations: U64, codes: seq<(Hash, U64)>)
    ensures Codes(InitialOps(authorizations, codes)) == set c | c in codes && c.1 > 0 :: c.0
    ensures forall c <- codes :: Record(c.0, c.1) in InitialOps(authorizations, codes)
    ensures Ticks(InitialOps(authorizations, codes)) == 0
    ensures forall op <- InitialOps(authorizations, codes) :: op.Record? ==> (op.hash, op.bytes) in codes
  {
    var ops, all := RecordOps(codes), InitialOps(authorizations, codes);
    RecordOpsAre(codes);
    assert forall i :: 0 <= i < |codes| ==> all[i + 1] == ops[i] == Record(codes[i].0, codes[i].1);
    assert all[0].Reserve?;
    forall c | c in codes ensures Record(c.0, c.1) in all {
      var i :| 0 <= i < |codes| && codes[i] == c;
      assert all[i + 1] == Record(c.0, c.1);
    }
    forall op | op in all && op.Record? ensures (op.hash, op.bytes) in codes {
      var i :| 0 <= i < |all| && all[i] == op;
      assert op == Record(codes[i - 1].0, codes[i - 1].1) && codes[i - 1] in codes;
    }
    CodesAre(all);
    NoTicks(all);
  }

  lemma {:induction false} NoTicks(ops: seq<Op>)
    requires forall op <- ops :: !op.Tick?
    ensures Ticks(ops) == 0
  {
    if ops != [] {
      NoTicks(ops[..|ops| - 1]);
      assert ops[|ops| - 1] in ops;
    }
  }

  /** What a transaction touches is what its operations record. */
  lemma TouchedIsRecorded(p: Profile, size: Hash -> U64)
    ensures Codes(OpsOf(p)) == Touched(p)
    ensures Sized(p, size) ==> Consistent(OpsOf(p), size)
  {
    InitialOpsRecordLoaded(p.authorizations, p.loaded);
    CodesAre(OpsOf(p));
    CodesAre(InitialOps(p.authorizations, p.loaded));
    forall op | op in OpsOf(p) && op.Record? && Sized(p, size) ensures op.bytes == size(op.hash) {
      if op in InitialOps(p.authorizations, p.loaded) {
        assert (op.hash, op.bytes) in p.loaded;
      } else {
        assert op in p.rest;
      }
    }
  }

  lemma {:induction false} TouchedByAllIsRecorded(ps: seq<Profile>, size: Hash -> U64)
    ensures CodesOfAll(OpsOfAll(ps)) == TouchedByAll(ps)
  {
    if ps != [] {
      TouchedByAllIsRecorded(ps[..|ps| - 1], size);
      TouchedIsRecorded(ps[|ps| - 1], size);
      assert OpsOfAll(ps)[..|ps| - 1] == OpsOfAll(ps[..|ps| - 1]);
    }
  }

  /**
   In every reachable state of a limited meter the accepted bytes are the sizes of the union of the
   codes that the accepted transactions loaded or recorded, plus 23 for each of their authorizations,
   within the budget.
   */
  lemma BlockCountsAuthorizations(maxCodeBytes: U64, maxSteps: U64, ps: seq<Profile>, size: Hash -> U64)
    requires maxCodeBytes < U64_MAX && forall p <- ps :: Plain(p) && Sized(p, size)
    ensures var m := NewMeter(maxCodeBytes, maxSteps);
            var kept := KeptProfiles(m, ps);
            && AfterAll(m, OpsOfAll(ps)).acceptedBytes == Total(TouchedByAll(kept), size) + 23 * Authorizations(kept)
            && AfterAll(m, OpsOfAll(ps)).acceptedBytes <= maxCodeBytes
            && Kept(m, OpsOfAll(ps)) == OpsOfAll(kept)
  {
    var m := NewMeter(maxCodeBytes, maxSteps);
    forall ops | ops in OpsOfAll(ps) ensures Consistent(ops, size) {
      var i :| 0 <= i < |ps| && ops == OpsOfAll(ps)[i];
      assert ps[i] in ps;
      TouchedIsRecorded(ps[i], size);
    }
    BlockIsAccounted(maxCodeBytes, maxSteps, OpsOfAll(ps), size);
    KeptAreOfProfiles(m, ps);
    KeptProfilesAreGiven(m, ps);
    ReservedPerAuthorization(KeptProfiles(m, ps));
    TouchedByAllIsRecorded(KeptProfiles(m, ps), size);
  }

  // ----- Order independence ----------------------------------------------------------------------

  lemma {:induction false} CodesOfAllContain(txs: seq<seq<Op>>, ops: seq<Op>)
    requires ops in txs
    ensures Codes(ops) <= CodesOfAll(txs)
  {
    var prefix, last := txs[..|txs| - 1], txs[|txs| - 1];
    assert txs == prefix + [last];
    if ops != last { CodesOfAllContain(prefix, ops); }
  }

  lemma {:induction false} CodesOfFewer(a: seq<seq<Op>>, b: seq<seq<Op>>)
    requires forall ops <- a :: ops in b
    ensures CodesOfAll(a) <= CodesOfAll(b)
  {
    if a != [] {
      CodesOfFewer(a[..|a| - 1], b);
      CodesOfAllContain(b, a[|a| - 1]);
    }
  }

  lemma {:induction false} ReservedWithout(txs: seq<seq<Op>>, i: nat)
    requires i < |txs|
    ensures ReservedByAll(txs) == ReservedByAll(txs[..i] + txs[i + 1..]) + Reserved(txs[i])
  {
    var n := |txs| - 1;
    var less := txs[..i] + txs[i + 1..];
    if i == n {
      assert less == txs[..n];
    } else {
      ReservedWithout(txs[..n], i);
      assert less[..|less| - 1] == txs[..n][..i] + txs[..n][i + 1..];
    }
  }

  lemma Cancel(p: multiset<seq<Op>>, q: multiset<seq<Op>>, x: seq<Op>)
    requires p + multiset{x} == q + multiset{x}
    ensures p == q
  {
    assert p == (p + multiset{x}) - multiset{x};
    assert q == (q + multiset{x}) - multiset{x};
  }

  lemma RemoveFromBoth(a: seq<seq<Op>>, b: seq<seq<Op>>, i: nat)
    requires multiset(a) == multiset(b) && a != [] && i < |b| && b[i] == a[|a| - 1]
    ensures multiset(a[..|a| - 1]) == multiset(b[..i] + b[i + 1..])
  {
    var n := |a| - 1;
    assert multiset(a) == multiset(a[..n]) + multiset{a[n]} by { assert a == a[..n] + [a[n]]; }
    assert multiset(b) == multiset(b[..i]) + multiset{b[i]} + multiset(b[i + 1..]) by {
      assert b == b[..i] + [b[i]] + b[i + 1..];
    }
    Cancel(multiset(a[..n]), multiset(b[..i]) + multiset(b[i + 1..]), a[n]);
  }

  lemma LastIsInOther(a: seq<seq<Op>>, b: seq<seq<Op>>) returns (i: nat)
    requires multiset(a) == multiset(b) && a != []
    ensures i < |b| && b[i] == a[|a| - 1]
  {
    assert a[|a| - 1] in multiset(b);
    i :| 0 <= i < |b| && b[i] == a[|a| - 1];
  }

  lemma {:induction false} ReservedPermutes(a: seq<seq<Op>>, b: seq<seq<Op>>)
    requires multiset(a) == multiset(b)
    ensures ReservedByAll(a) == ReservedByAll(b)
    decreases |a|
  {
    if a == [] {
      assert |multiset(b)| == 0;
    } else {
      var n := |a| - 1;
      var i := LastIsInOther(a, b);
      RemoveFromBoth(a, b, i);
      ReservedWithout(b, i);
      ReservedPermutes(a[..n], b[..i] + b[i + 1..]);
    }
  }

  /**
   If a list of transactions is accepted whole in one order, it is accepted whole in every order,
   and the block's code bytes are the same.
   */
  lemma OrderDoesNotMatter(maxCodeBytes: U64, maxSteps: U64, a: seq<seq<Op>>, b: seq<seq<Op>>, size: Hash -> U64)
    requires maxCodeBytes < U64_MAX && multiset(a) == multiset(b) && forall ops <- a :: Consistent(ops, size)
    requires Kept(NewMeter(maxCodeBytes, maxSteps), a) == a
    ensures var m := NewMeter(maxCodeBytes, maxSteps);
            Kept(m, b) == b && AfterAll(m, b).acceptedBytes == AfterAll(m, a).acceptedBytes
  {
    assert forall ops :: ops in b <==> ops in a by {
      assert forall ops :: ops in a <==> ops in multiset(a);
      assert forall ops :: ops in b <==> ops in multiset(b);
    }
    CodesOfFewer(a, b);
    CodesOfFewer(b, a);
    assert CodesOfAll(a) == CodesOfAll(b);
    ReservedPermutes(a, b);
    AllKeptIff(maxCodeBytes, maxSteps, a, size);
    AllKeptIff(maxCodeBytes, maxSteps, b, size);
    BlockIsAccounted(maxCodeBytes, maxSteps, a, size);
    BlockIsAccounted(maxCodeBytes, maxSteps, b, size);
  }

  /**
   With the budget at 2^64 - 1 no transaction is ever turned away for its code, and the accepted
   bytes are the exact sum only as long as that sum fits 64 bits.
   */
  lemma UnlimitedBudget(m: Meter, ops: seq<Op>, size: Hash -> U64)
    requires m.maxCodeBytes == U64_MAX && Consistent(ops, size)
    ensures Try(m, ops).1 <==> Ticks(ops) <= m.maxSteps
    ensures Try(m, ops).1 ==> Try(m, ops).0.acceptedBytes == Min(m.acceptedBytes + NewBytes(m, ops, size), U64_MAX)
  {
    OpsAreMetered(m, ops, size);
  }

  lemma {:induction false} PendingAfter(m: Meter, ops: seq<Op>)
    ensures RunOps(m, ops).pending.Keys == m.pending.Keys + Codes(ops)
  {
    if ops != [] { PendingAfter(m, ops[..|ops| - 1]); }
  }

  // ----- The shared handle -----------------------------------------------------------------------

  class CodeWitnessHandle {
    const maxCodeBytes: U64
    const maxSteps: U64
    var accepted: map<Hash, U64>
    var pending: map<Hash, U64>
    var acceptedBytes: U64
    var pendingBytes: U64
    var transactionBytes: U64
    var steps: U64
    var exceeded: Option<Limit>
    var initialized: bool

    function View(): Meter
      reads this
    {
      Meter(maxCodeBytes, maxSteps, accepted, pending, acceptedBytes, pendingBytes, transactionBytes,
            steps, exceeded, initialized)
    }

    constructor (maxCodeBytes: U64, maxSteps: U64)
      ensures View() == NewMeter(maxCodeBytes, maxSteps)
    {
      this.maxCodeBytes, this.maxSteps := maxCodeBytes, maxSteps;
      accepted, pending := map[], map[];
      acceptedBytes, pendingBytes, transactionBytes, steps := 0, 0, 0, 0;
      exceeded, initialized := None, false;
    }

    method CheckBudget()
      modifies this
      ensures View() == old(View()).CheckBudget()
    {
      if SatAdd(acceptedBytes, pendingBytes) > maxCodeBytes && exceeded.None? {
        exceeded := Some(CodeBytes);
      }
    }

    method Reserve(bytes: U64)
      modifies this
      ensures View() == old(View()).Apply(Op.Reserve(bytes))
    {
      pendingBytes := SatAdd(pendingBytes, bytes);
      transactionBytes := SatAdd(transactionBytes, bytes);
      CheckBudget();
    }

    method Record(hash: Hash, bytes: U64)
      modifies this
      ensures View() == old(View()).Apply(Op.Record(hash, bytes))
    {
      if bytes == 0 || hash in pending { return; }
      pending := pending[hash := bytes];
      transactionBytes := SatAdd(transactionBytes, bytes);
      if hash !in accepted {
        pendingBytes := SatAdd(pendingBytes, bytes);
      }
      CheckBudget();
    }

    /** The `step` hook; `proceed` is false when the interpreter must halt before the opcode. */
    method Step() returns (proceed: bool)
      modifies this
      ensures View() == old(View()).Apply(Tick)
      ensures proceed <==> exceeded.None?
    {
      if steps >= maxSteps && exceeded.None? {
        exceeded := Some(ExecutionSteps);
      }
      proceed := exceeded.None?;
      if proceed {
        steps := SatAdd(steps, 1);
      }
    }

    /** `initial_codes`: once per transaction. */
    method InitialCodes(authorizations: U64, codes: seq<(Hash, U64)>)
      modifies this
      ensures View() == if old(initialized) then old(View())
                        else RunOps(old(View()).(initialized := true), InitialOps(authorizations, codes))
      ensures !old(initialized) ==> pending.Keys == old(pending.Keys) + set c | c in codes && c.1 > 0 :: c.0
    {
      if initialized { return; }
      initialized := true;
      ghost var start := View();
      Reserve(Min(23 * authorizations, U64_MAX));
      ghost var first := [Op.Reserve(Min(23 * authorizations, U64_MAX))];
      assert RunOps(start, first) == RunOps(start, []).Apply(first[0]) by { assert first[..0] == []; }
      for i := 0 to |codes|
        invariant View() == RunOps(start, first + RecordOps(codes[..i]))
      {
        var (hash, bytes) := codes[i];
        assert codes[..i + 1][..i] == codes[..i];
        var ops := first + RecordOps(codes[..i + 1]);
        assert ops[..|ops| - 1] == first + RecordOps(codes[..i]) && ops[|ops| - 1] == Op.Record(hash, bytes);
        Record(hash, bytes);
      }
      assert codes[..|codes|] == codes;
      PendingAfter(start, InitialOps(authorizations, codes));
      InitialOpsRecordLoaded(authorizations, codes);
    }

    method BeginTransaction()
      modifies this
      ensures View() == old(View()).Reset()
    {
      pending, pendingBytes, transactionBytes, steps, exceeded, initialized := map[], 0, 0, 0, None, false;
    }

    method AcceptTransaction() returns (ok: bool)
      modifies this
      ensures ok <==> old(exceeded).None?
      ensures View() == if ok then old(View()).Accept() else old(View())
    {
      if exceeded.Some? { return false; }
      var taken := pending;
      pending := map[];
      accepted := accepted + taken;
      acceptedBytes := SatAdd(acceptedBytes, pendingBytes);
      pendingBytes := 0;
      return true;
    }

    method RejectTransaction()
      modifies this
      ensures View() == old(View()).Reset()
    {
      BeginTransaction();
    }
  }
}
