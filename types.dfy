/** The ledger's records (the interfaces at the top of src/models/blockModel.ts)
    and the outcomes its operations report. */
module LedgerTypes {

  datatype Option<+T> = None | Some(value: T)

  /** A spend of output number `index` of transaction `txId`, together with the
      value the submitter declares for it. */
  datatype Input = Input(txId: string, index: nat, value: int)

  /** A credit of `value` to `address`. */
  datatype Output = Output(address: string, value: int)

  datatype Transaction = Transaction(id: string, inputs: seq<Input>, outputs: seq<Output>)

  /** A block as submitted. An `id` of "" stands for a block submitted without
      an id: the service treats a missing and an empty id alike. */
  datatype Block = Block(id: string, height: int, transactions: seq<Transaction>)

  /** The errors the core throws, one constructor per `throw` site. */
  datatype LedgerError =
    | InvalidHeight(expected: int, got: int)
    | InvalidBlockId
    | GenesisOutputsNotPositive(txId: string)
    | GenesisHasInputs(txId: string)
    | UnbalancedTransaction(txId: string)
    | TransactionNotFound(txId: string)
      // the referenced transaction exists but has no output at `index`
    | OutputNotFound(txId: string, index: nat)
      // an insert broke a key of the relational schema; the insert is undone
    | StorageConflict

  datatype Result<+T> = Success(value: T) | Failure(error: LedgerError)

  /** The result of an operation that returns nothing but may throw. */
  datatype Outcome = Pass | Fail(error: LedgerError)
}
