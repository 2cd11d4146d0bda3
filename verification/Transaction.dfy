/** What the payload builder, the block executor and the consensus checks see of a transaction. */
module Transaction {
  import opened MachineInts

  /** `hash` identifies the transaction; `encodedLength` is its EIP-2718 length. */
  datatype Tx =
    | L1Message(hash: nat, gasLimit: U64, encodedLength: U64, queueIndex: U64)
    | L2(hash: nat, gasLimit: U64, encodedLength: U64)
    | Blob(hash: nat, gasLimit: U64, encodedLength: U64)
}
