/** The pure part of BlockchainService (src/services/blockService.ts): the
    content hash preimage, the id a block is given when it has none, and the
    fail-fast validation of a candidate block against the current height.
    The hash itself (SHA-256 in the source) is a parameter: nothing here
    depends on what it computes. */
module Validation {
  import opened LedgerTypes

  /** `outputs.reduce((sum, output) => sum + output.value, 0)` */
  function SumOutputs(outputs: seq<Output>): int
  {
    if outputs == [] then 0 else outputs[0].value + SumOutputs(outputs[1..])
  }

  /** `inputs.reduce((sum, input) => sum + input.value, 0)` */
  function SumInputs(inputs: seq<Input>): int
  {
    if inputs == [] then 0 else inputs[0].value + SumInputs(inputs[1..])
  }

  function DigitChar(d: nat): char
    requires d < 10
  {
    "0123456789"[d]
  }

  function Digits(n: nat): string
    decreases n
  {
    if n < 10 then [DigitChar(n)] else Digits(n / 10) + [DigitChar(n % 10)]
  }

  /** The text JavaScript gives an integer height when it is added to a string. */
  function HeightText(height: int): string
  {
    if height < 0 then "-" + Digits(-height) else Digits(height)
  }

  /** `transactions.map(tx => tx.id).join('')` */
  function ConcatIds(txs: seq<Transaction>): string
  {
    if txs == [] then "" else txs[0].id + ConcatIds(txs[1..])
  }

  /** What the block id is the hash of: the height followed by the
      transaction ids in array order. */
  function Preimage(b: Block): string
  {
    HeightText(b.height) + ConcatIds(b.transactions)
  }

  /** The block's id is the hash of its preimage. */
  predicate IdMatches(b: Block, hash: string -> string)
  {
    b.id == hash(Preimage(b))
  }

  /** `processBlock` fills in a missing (or empty) id with the computed hash
      and leaves a supplied id alone. */
  function AssignId(b: Block, hash: string -> string): (r: Block)
    ensures r.height == b.height && r.transactions == b.transactions
    ensures b.id == "" ==> IdMatches(r, hash)
    ensures b.id != "" ==> r == b
  {
    if b.id == "" then b.(id := hash(Preimage(b))) else b
  }

  /** The rule a transaction must meet in a block at `height`. */
  predicate TransactionIsValid(tx: Transaction, height: int)
  {
    if height == 1 then SumOutputs(tx.outputs) > 0 && tx.inputs == []
    else SumInputs(tx.inputs) == SumOutputs(tx.outputs)
  }

  /** The check of one transaction, as the loop body of `validateBlock` does it. */
  function CheckTransaction(tx: Transaction, height: int): (r: Outcome)
    ensures r.Pass? <==> TransactionIsValid(tx, height)
    ensures height == 1 && SumOutputs(tx.outputs) <= 0 ==> r == Fail(GenesisOutputsNotPositive(tx.id))
    ensures height == 1 && SumOutputs(tx.outputs) > 0 && tx.inputs != [] ==> r == Fail(GenesisHasInputs(tx.id))
    ensures height != 1 && !TransactionIsValid(tx, height) ==> r == Fail(UnbalancedTransaction(tx.id))
  {
    if height == 1 then
      if SumOutputs(tx.outputs) <= 0 then Fail(GenesisOutputsNotPositive(tx.id))
      else if |tx.inputs| > 0 then Fail(GenesisHasInputs(tx.id))
      else Pass
    else if SumInputs(tx.inputs) != SumOutputs(tx.outputs) then Fail(UnbalancedTransaction(tx.id))
    else Pass
  }

  /** The transaction loop of `validateBlock`: the first failing transaction,
      in array order, decides the error. */
  function ValidateTransactions(txs: seq<Transaction>, height: int): (r: Outcome)
    ensures r.Pass? <==> forall i :: 0 <= i < |txs| ==> TransactionIsValid(txs[i], height)
    ensures r.Fail? ==> exists i :: 0 <= i < |txs| && CheckTransaction(txs[i], height) == r
                                    && forall j :: 0 <= j < i ==> TransactionIsValid(txs[j], height)
  {
    if txs == [] then Pass
    else
      match CheckTransaction(txs[0], height)
      case Fail(e) => Fail(e)
      case Pass =>
        var r := ValidateTransactions(txs[1..], height);
        assert forall i :: 1 <= i < |txs| ==> txs[i] == txs[1..][i - 1];
        if r.Fail? then
          var i :| 0 <= i < |txs[1..]| && CheckTransaction(txs[1..][i], height) == r
                   && forall j :: 0 <= j < i ==> TransactionIsValid(txs[1..][j], height);
          assert CheckTransaction(txs[i + 1], height) == r;
          r
        else r
  }

  /** Everything `validateBlock` demands of a block, all at once. */
  predicate BlockIsValid(b: Block, currentHeight: int, hash: string -> string)
  {
    && b.height == currentHeight + 1
    && IdMatches(b, hash)
    && forall i :: 0 <= i < |b.transactions| ==> TransactionIsValid(b.transactions[i], b.height)
  }

  /** `validateBlock`: the height check, then the id check, then the
      transactions in array order; the first failure is the error. */
  function ValidateBlock(b: Block, currentHeight: int, hash: string -> string): (r: Outcome)
    ensures r.Pass? <==> BlockIsValid(b, currentHeight, hash)
    ensures b.height != currentHeight + 1 ==> r == Fail(InvalidHeight(currentHeight + 1, b.height))
    ensures b.height == currentHeight + 1 && !IdMatches(b, hash) ==> r == Fail(InvalidBlockId)
    ensures b.height == currentHeight + 1 && IdMatches(b, hash) ==> r == ValidateTransactions(b.transactions, b.height)
  {
    if b.height != currentHeight + 1 then Fail(InvalidHeight(currentHeight + 1, b.height))
    else if b.id != hash(Preimage(b)) then Fail(InvalidBlockId)
    else ValidateTransactions(b.transactions, b.height)
  }

  /** A block that arrived without an id never fails the id check: after
      `processBlock` assigns it, validation fails only on the height or on a
      transaction. */
  lemma AssignedIdPassesIdCheck(b: Block, currentHeight: int, hash: string -> string)
    requires b.id == ""
    ensures ValidateBlock(AssignId(b, hash), currentHeight, hash) != Fail(InvalidBlockId)
  {
    var stamped := AssignId(b, hash);
    if stamped.height == currentHeight + 1 {
      var r := ValidateTransactions(stamped.transactions, stamped.height);
      if r.Fail? {
        var i :| 0 <= i < |stamped.transactions| && CheckTransaction(stamped.transactions[i], stamped.height) == r;
      }
    }
  }
}
