/** The account state under the block executor, and what committing an EVM state update does to it. */
module WorldState {
  import opened MachineInts

  type Address = nat
  /** A 256-bit word; only equality is used. */
  type Word = nat

  /** A code, named by what it is: equal codes have equal hashes and the reverse. */
  datatype Code = Empty | FeynmanOracle | GalileoV2Oracle | NativeDogeToken | Other(hash: nat)

  datatype Info = Info(balance: Word, nonce: nat, code: Code)
  {
    predicate IsEmpty() { balance == 0 && nonce == 0 && code == Empty }
  }

  const DEFAULT_INFO := Info(0, 0, Empty)

  datatype Account = Account(info: Info, storage: map<Word, Word>)

  type State = map<Address, Account>

  /** One account of an update: its new info, its changed slots, and its status flags. */
  datatype Change = Change(info: Info, slots: map<Word, Word>, touched: bool, created: bool, destroyed: bool)

  type Update = map<Address, Change>

  function Lookup(s: State, a: Address): Option<Account> {
    if a in s then Some(s[a]) else None
  }

  /** `db.basic(a).unwrap_or_default()`. */
  function InfoOf(s: State, a: Address): Info {
    if a in s then s[a].info else DEFAULT_INFO
  }

  function StorageOf(s: State, a: Address, slot: Word): Word {
    if a in s && slot in s[a].storage then s[a].storage[slot] else 0
  }

  /** The account after its change is committed; an account left empty is removed. */
  function AfterChange(before: Option<Account>, c: Change): Option<Account> {
    if !c.touched then before
    else if c.destroyed then None
    else if c.created then Some(Account(c.info, c.slots))
    else if c.info.IsEmpty() then None
    else Some(Account(c.info, (if before.Some? then before.value.storage else map[]) + c.slots))
  }

  function After(s: State, u: Update, a: Address): Option<Account> {
    if a in u then AfterChange(Lookup(s, a), u[a]) else Lookup(s, a)
  }

  function Commit(s: State, u: Update): State {
    map a | a in s.Keys + u.Keys && After(s, u, a).Some? :: After(s, u, a).value
  }

  function CommitAll(s: State, us: seq<Update>): State {
    if us == [] then s else Commit(CommitAll(s, us[..|us| - 1]), us[|us| - 1])
  }

  lemma CommitAt(s: State, u: Update, a: Address)
    ensures Lookup(Commit(s, u), a) == After(s, u, a)
  {
  }

  lemma CommitEmpty(s: State)
    ensures Commit(s, map[]) == s
  {
  }

  lemma CommitAllSnoc(s: State, us: seq<Update>, u: Update)
    ensures CommitAll(s, us + [u]) == Commit(CommitAll(s, us), u)
  {
    assert (us + [u])[..|us + [u]| - 1] == us;
  }
}
