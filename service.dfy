/** BlockchainService (src/services/blockService.ts): processes a block
    (assign id, validate, insert, update balances), rolls back, and reports
    balances, over one BlockModel. */
module Service {
  import opened LedgerTypes
  import opened Accounting
  import opened Validation
  import opened Store

  class BlockchainService {
    const model: BlockModel
    /** The content hash (SHA-256 of the preimage text in the source). */
    const hash: string -> string

    constructor (model: BlockModel, hash: string -> string)
      ensures this.model == model && this.hash == hash
    {
      this.model := model;
      this.hash := hash;
    }

    /** `processBlock`: assign the id if it is missing, validate against the
        current height, insert, then update balances. The insert commits
        before the balance update runs, so a lookup that fails during the
        balance update leaves the block stored and the balances as they were. */
    method ProcessBlock(block: Block) returns (stamped: Block, outcome: Outcome)
      modifies model`blocks, model`balances
      ensures stamped == AssignId(block, hash)
      ensures outcome.Pass? <==>
                && BlockIsValid(stamped, old(model.CurrentHeight()), hash)
                && Insertable(old(model.blocks), stamped)
                && AllResolved(stamped.transactions, AllTransactions(old(model.blocks) + [stamped]))
      ensures !BlockIsValid(stamped, old(model.CurrentHeight()), hash) ==>
                && outcome == ValidateBlock(stamped, old(model.CurrentHeight()), hash)
                && model.blocks == old(model.blocks)
      ensures BlockIsValid(stamped, old(model.CurrentHeight()), hash) && !Insertable(old(model.blocks), stamped) ==>
                outcome == Fail(StorageConflict) && model.blocks == old(model.blocks)
      ensures BlockIsValid(stamped, old(model.CurrentHeight()), hash) && Insertable(old(model.blocks), stamped) ==>
                model.blocks == old(model.blocks) + [stamped]
      ensures BlockIsValid(stamped, old(model.CurrentHeight()), hash) && Insertable(old(model.blocks), stamped)
              && outcome.Fail? ==>
                exists i, k :: FirstUnresolved(stamped.transactions, model.Transactions(), i, k)
                  && outcome.error == LookupError(model.Transactions(), stamped.transactions[i].inputs[k])
      ensures outcome.Fail? ==> model.balances == old(model.balances)
      ensures outcome.Pass? ==>
                model.balances == old(model.balances)
                                  + Upserts(model.blocks, NetChanges(stamped.transactions, model.Transactions()))
      ensures outcome.Pass? ==> IdMatches(model.blocks[|model.blocks| - 1], hash)
      ensures outcome.Pass? && old(model.Gapless()) ==> model.Gapless()
      ensures old(UniqueTxIds(model.Transactions())) ==> UniqueTxIds(model.Transactions())
    {
      stamped := AssignId(block, hash);
      outcome := ValidateBlock(stamped, model.CurrentHeight(), hash);
      if outcome.Fail? {
        return;
      }
      outcome := model.CreateBlock(stamped);
      if outcome.Fail? {
        return;
      }
      AllTransactionsAppend(old(model.blocks), stamped);
      outcome := UpdateBalances(stamped);
    }

    /** The first half of `updateBalances`: one net delta per address, built
        in place transaction by transaction: first the outputs, then the
        inputs. The walk stops at the first input whose transaction or output
        cannot be found. */
    method BalanceDeltas(block: Block) returns (r: Result<map<string, int>>)
      ensures r.Success? <==> AllResolved(block.transactions, model.Transactions())
      ensures r.Success? ==> r.value.Keys == Touched(block.transactions, model.Transactions())
      ensures r.Success? ==>
                forall a :: Get(r.value, a) == NetChange(block.transactions, a, model.Transactions())
      ensures r.Success? ==> r.value == NetChanges(block.transactions, model.Transactions())
      ensures r.Failure? ==>
                exists i, k :: FirstUnresolved(block.transactions, model.Transactions(), i, k)
                  && r.error == LookupError(model.Transactions(), block.transactions[i].inputs[k])
    {
      var store := model.Transactions();
      var txs := block.transactions;
      var deltas: map<string, int> := map[];
      var i := 0;
      while i < |txs|
        invariant 0 <= i <= |txs|
        invariant AllResolved(txs[..i], store)
        invariant deltas.Keys == Touched(txs[..i], store)
        invariant forall a :: Get(deltas, a) == NetChange(txs[..i], a, store)
      {
        var tx := txs[i];
        var credited := CreditOutputs(deltas, tx.outputs);
        var debited := DebitInputs(credited, tx.inputs);
        if debited.Failure? {
          var k :| 0 <= k < |tx.inputs| && Resolve(store, tx.inputs[k]).None?
                   && debited.error == LookupError(store, tx.inputs[k])
                   && forall m :: 0 <= m < k ==> Resolve(store, tx.inputs[m]).Some?;
          assert forall j :: 0 <= j < i ==> txs[..i][j] == txs[j];
          assert FirstUnresolved(txs, store, i, k);
          return Failure(debited.error);
        }
        TransactionStep(deltas, credited, debited.value, txs, i, store);
        deltas := debited.value;
        i := i + 1;
      }
      assert txs[..i] == txs;
      SameDeltas(deltas, txs, store);
      r := Success(deltas);
    }

    /** The outputs loop of `updateBalances`: each output adds its value to
        its address's delta. */
    static method CreditOutputs(deltas: map<string, int>, outputs: seq<Output>) returns (credited: map<string, int>)
      ensures credited.Keys == deltas.Keys + Payees(outputs)
      ensures forall a :: Get(credited, a) == Get(deltas, a) + PaidTo(outputs, a)
    {
      credited := deltas;
      var j := 0;
      while j < |outputs|
        invariant 0 <= j <= |outputs|
        invariant credited.Keys == deltas.Keys + Payees(outputs[..j])
        invariant forall a :: Get(credited, a) == Get(deltas, a) + PaidTo(outputs[..j], a)
      {
        var output := outputs[j];
        credited := credited[output.address := Get(credited, output.address) + output.value];
        assert outputs[..j + 1][..j] == outputs[..j];
        j := j + 1;
      }
      assert outputs[..j] == outputs;
    }

    /** The inputs loop of `updateBalances`: each input looks up the
        transaction it spends (`getTransaction`) and subtracts the STORED
        value of the spent output from that output's owner; the declared
        value of the input plays no part. */
    method DebitInputs(deltas: map<string, int>, inputs: seq<Input>) returns (r: Result<map<string, int>>)
      ensures r.Success? <==> forall k :: 0 <= k < |inputs| ==> Resolve(model.Transactions(), inputs[k]).Some?
      ensures r.Success? ==> r.value.Keys == deltas.Keys + Owners(inputs, model.Transactions())
      ensures r.Success? ==>
                forall a :: Get(r.value, a) == Get(deltas, a) - SpentFrom(inputs, a, model.Transactions())
      ensures r.Failure? ==>
                exists k :: 0 <= k < |inputs| && Resolve(model.Transactions(), inputs[k]).None?
                  && r.error == LookupError(model.Transactions(), inputs[k])
                  && forall m :: 0 <= m < k ==> Resolve(model.Transactions(), inputs[m]).Some?
    {
      var store := model.Transactions();
      var debited := deltas;
      var k := 0;
      while k < |inputs|
        invariant 0 <= k <= |inputs|
        invariant forall m :: 0 <= m < k ==> Resolve(store, inputs[m]).Some?
        invariant debited.Keys == deltas.Keys + Owners(inputs[..k], store)
        invariant forall a :: Get(debited, a) == Get(deltas, a) - SpentFrom(inputs[..k], a, store)
      {
        var input := inputs[k];
        var prevTx := model.GetTransaction(input.txId);
        if prevTx.Failure? {
          assert FindTransaction(store, input.txId).None?;
          return Failure(prevTx.error);
        }
        assert FindTransaction(store, input.txId) == Some(prevTx.value);
        if input.index >= |prevTx.value.outputs| {
          assert Resolve(store, inputs[k]).None?;
          return Failure(OutputNotFound(input.txId, input.index));
        }
        var prevOutput := prevTx.value.outputs[input.index];
        assert Resolve(store, input) == Some(prevOutput);
        DebitStep(deltas, debited, inputs, k, store, prevOutput);
        debited := debited[prevOutput.address := Get(debited, prevOutput.address) - prevOutput.value];
        k := k + 1;
      }
      assert inputs[..k] == inputs;
      r := Success(debited);
    }

    /** `updateBalance` (the service's): read the address's balance from the
        store, add the delta, and upsert the sum. The balance read is the
        one derived from the ledger rows, which already include the block
        being processed. */
    method UpdateBalance(address: string, value: int)
      modifies model`balances
      ensures model.balances == old(model.balances)[address := model.GetBalance(address) + value]
    {
      var currentBalance := model.GetBalance(address);
      var newBalance := currentBalance + value;
      model.UpdateBalance(address, newBalance);
    }

    /** The second half of `updateBalances`: one upsert per address of the
        delta map, and none for any other address. */
    method ApplyDeltas(deltas: map<string, int>)
      modifies model`balances
      ensures model.balances == old(model.balances) + Upserts(model.blocks, deltas)
    {
      ghost var target := Upserts(model.blocks, deltas);
      var pending := deltas.Keys;
      while pending != {}
        invariant pending <= deltas.Keys
        invariant model.balances == old(model.balances) + map a | a in target && a !in pending :: target[a]
        decreases pending
      {
        var a :| a in pending;
        OverlayStep(old(model.balances), target, pending, a);
        assert target[a] == model.GetBalance(a) + deltas[a];
        UpdateBalance(a, deltas[a]);
        pending := pending - {a};
      }
      assert (map a | a in target && a !in pending :: target[a]) == target;
    }

    /** `updateBalances`: the delta map, then its upserts. On a failed lookup
        no balance is written. */
    method UpdateBalances(block: Block) returns (outcome: Outcome)
      modifies model`balances
      ensures outcome.Pass? <==> AllResolved(block.transactions, model.Transactions())
      ensures outcome.Fail? ==> model.balances == old(model.balances)
      ensures outcome.Fail? ==>
                exists i, k :: FirstUnresolved(block.transactions, model.Transactions(), i, k)
                  && outcome.error == LookupError(model.Transactions(), block.transactions[i].inputs[k])
      ensures outcome.Pass? ==>
                model.balances == old(model.balances)
                                  + Upserts(model.blocks, NetChanges(block.transactions, model.Transactions()))
    {
      var deltas := BalanceDeltas(block);
      if deltas.Failure? {
        return Fail(deltas.error);
      }
      ApplyDeltas(deltas.value);
      outcome := Pass;
    }

    /** `rollbackToHeight`: delegates to the store, so the balances table is
        left as it was. */
    method RollbackToHeight(h: int)
      modifies model`blocks
      ensures model.blocks == Prune(old(model.blocks), h)
      ensures model.balances == old(model.balances)
      ensures old(model.Gapless()) && h >= 0 ==>
                model.Gapless()
                && model.CurrentHeight() == if h < old(model.CurrentHeight()) then h else old(model.CurrentHeight())
      ensures old(UniqueTxIds(model.Transactions())) ==> UniqueTxIds(model.Transactions())
    {
      model.RollbackToHeight(h);
    }

    /** `getBalance`: the store's derived balance; 0 for an address no stored
        output pays. */
    function GetBalance(address: string): (balance: int)
      reads model`blocks
      ensures balance == model.GetBalance(address)
      ensures NeverPaid(model.Transactions(), address) ==> balance == 0
    {
      model.GetBalance(address)
    }
  }

  /** One input of the debit loop, on the delta map: the owner of the output it
      spends loses that output's stored value. */
  lemma DebitStep(deltas: map<string, int>, debited: map<string, int>, inputs: seq<Input>, k: nat,
                  store: seq<Transaction>, spent: Output)
    requires k < |inputs| && Resolve(store, inputs[k]) == Some(spent)
    requires forall m :: 0 <= m < k ==> Resolve(store, inputs[m]).Some?
    requires debited.Keys == deltas.Keys + Owners(inputs[..k], store)
    requires forall a :: Get(debited, a) == Get(deltas, a) - SpentFrom(inputs[..k], a, store)
    ensures forall m :: 0 <= m < k + 1 ==> Resolve(store, inputs[m]).Some?
    ensures var next := debited[spent.address := Get(debited, spent.address) - spent.value];
            && next.Keys == deltas.Keys + Owners(inputs[..k + 1], store)
            && forall a :: Get(next, a) == Get(deltas, a) - SpentFrom(inputs[..k + 1], a, store)
  {
    assert inputs[..k + 1][..k] == inputs[..k];
  }

  /** Writing one more pending entry of `target` over `base`. */
  lemma OverlayStep(base: map<string, int>, target: map<string, int>, pending: set<string>, x: string)
    requires x in pending && pending <= target.Keys
    ensures (base + map a | a in target && a !in pending :: target[a])[x := target[x]]
            == base + map a | a in target && a !in pending - {x} :: target[a]
  {
  }

  /** One transaction of the delta loop: its credits and then its debits extend
      the delta map of the preceding transactions to one more transaction. */
  lemma TransactionStep(deltas: map<string, int>, credited: map<string, int>, debited: map<string, int>,
                        txs: seq<Transaction>, i: nat, store: seq<Transaction>)
    requires i < |txs|
    requires AllResolved(txs[..i], store)
    requires deltas.Keys == Touched(txs[..i], store)
    requires forall a :: Get(deltas, a) == NetChange(txs[..i], a, store)
    requires credited.Keys == deltas.Keys + Payees(txs[i].outputs)
    requires forall a :: Get(credited, a) == Get(deltas, a) + PaidTo(txs[i].outputs, a)
    requires forall k :: 0 <= k < |txs[i].inputs| ==> Resolve(store, txs[i].inputs[k]).Some?
    requires debited.Keys == credited.Keys + Owners(txs[i].inputs, store)
    requires forall a :: Get(debited, a) == Get(credited, a) - SpentFrom(txs[i].inputs, a, store)
    ensures AllResolved(txs[..i + 1], store)
    ensures debited.Keys == Touched(txs[..i + 1], store)
    ensures forall a :: Get(debited, a) == NetChange(txs[..i + 1], a, store)
  {
    assert txs[..i + 1][..i] == txs[..i];
    assert forall n :: 0 <= n < i ==> txs[..i][n] == txs[n];
    assert forall n :: 0 <= n <= i ==> txs[..i + 1][n] == txs[n];
  }
}
