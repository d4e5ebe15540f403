/** What the stored ledger rows say about addresses: transaction lookup, the
    balance derived from the rows, and the per-address net change a block
    causes. Sums over sequences peel off the LAST element, so that extending a
    prefix by one element (what the loops of the service do) is one unfolding. */
module Accounting {
  import opened LedgerTypes

  /** Every stored transaction, block after block, in insertion order. */
  function AllTransactions(blocks: seq<Block>): seq<Transaction>
  {
    if blocks == [] then []
    else AllTransactions(blocks[..|blocks| - 1]) + blocks[|blocks| - 1].transactions
  }

  lemma AllTransactionsAppend(blocks: seq<Block>, b: Block)
    ensures AllTransactions(blocks + [b]) == AllTransactions(blocks) + b.transactions
  {
    assert (blocks + [b])[..|blocks|] == blocks;
  }

  /** The stored transaction with the given id (the first one, should there be several). */
  function FindTransaction(txs: seq<Transaction>, id: string): (r: Option<Transaction>)
    ensures r.Some? <==> exists i :: 0 <= i < |txs| && txs[i].id == id
    ensures r.Some? ==> r.value in txs && r.value.id == id
  {
    if txs == [] then None
    else if txs[0].id == id then Some(txs[0])
    else
      var r := FindTransaction(txs[1..], id);
      assert forall i :: 1 <= i < |txs| ==> txs[i] == txs[1..][i - 1];
      r
  }

  /** No two transactions share an id: the primary key of the transactions table. */
  predicate UniqueTxIds(txs: seq<Transaction>)
  {
    forall i, j :: 0 <= i < j < |txs| ==> txs[i].id != txs[j].id
  }

  /** On a store with unique ids, the lookup finds THE transaction with the id. */
  lemma {:induction false} FindUnique(txs: seq<Transaction>, t: Transaction)
    requires UniqueTxIds(txs) && t in txs
    ensures FindTransaction(txs, t.id) == Some(t)
  {
    if txs[0] != t {
      assert UniqueTxIds(txs[1..]) by {
        forall i, j | 0 <= i < j < |txs[1..]|
          ensures txs[1..][i].id != txs[1..][j].id
        {
          assert txs[1..][i] == txs[i + 1] && txs[1..][j] == txs[j + 1];
        }
      }
      var n :| 0 <= n < |txs| && txs[n] == t;
      assert txs[0].id != t.id;
      assert txs[1..][n - 1] == t;
      FindUnique(txs[1..], t);
    }
  }

  lemma FindUniqueAll(txs: seq<Transaction>)
    ensures UniqueTxIds(txs) ==> forall t :: t in txs ==> FindTransaction(txs, t.id) == Some(t)
  {
    if UniqueTxIds(txs) {
      forall t | t in txs
        ensures FindTransaction(txs, t.id) == Some(t)
      {
        FindUnique(txs, t);
      }
    }
  }

  /** Ids are unique in a concatenation exactly when they are unique in each
      part and no id occurs in both parts. */
  lemma UniqueConcat(xs: seq<Transaction>, ys: seq<Transaction>)
    ensures UniqueTxIds(xs + ys) <==>
              && UniqueTxIds(xs) && UniqueTxIds(ys)
              && forall x, y :: x in xs && y in ys ==> x.id != y.id
  {
    var zs := xs + ys;
    if UniqueTxIds(zs) {
      forall i, j | 0 <= i < j < |xs|
        ensures xs[i].id != xs[j].id
      {
        assert zs[i] == xs[i] && zs[j] == xs[j];
      }
      forall i, j | 0 <= i < j < |ys|
        ensures ys[i].id != ys[j].id
      {
        assert zs[|xs| + i] == ys[i] && zs[|xs| + j] == ys[j];
      }
      forall x, y | x in xs && y in ys
        ensures x.id != y.id
      {
        var i :| 0 <= i < |xs| && xs[i] == x;
        var j :| 0 <= j < |ys| && ys[j] == y;
        assert zs[i] == x && zs[|xs| + j] == y;
      }
    }
    if UniqueTxIds(xs) && UniqueTxIds(ys) && forall x, y :: x in xs && y in ys ==> x.id != y.id {
      forall i, j | 0 <= i < j < |zs|
        ensures zs[i].id != zs[j].id
      {
        if j < |xs| {
          assert zs[i] == xs[i] && zs[j] == xs[j];
        } else if |xs| <= i {
          assert zs[i] == ys[i - |xs|] && zs[j] == ys[j - |xs|];
        } else {
          assert zs[i] == xs[i] && zs[j] == ys[j - |xs|];
        }
      }
    }
  }

  /** The stored output an input spends: output number `index` of the
      transaction `txId`, if that transaction is stored and has such an output. */
  function Resolve(store: seq<Transaction>, input: Input): Option<Output>
  {
    match FindTransaction(store, input.txId)
    case None => None
    case Some(tx) => if input.index < |tx.outputs| then Some(tx.outputs[input.index]) else None
  }

  /** The error the lookup of an unresolvable input throws. */
  function LookupError(store: seq<Transaction>, input: Input): LedgerError
  {
    if FindTransaction(store, input.txId).None? then TransactionNotFound(input.txId)
    else OutputNotFound(input.txId, input.index)
  }

  /** Every input of every transaction resolves against the store. */
  predicate AllResolved(txs: seq<Transaction>, store: seq<Transaction>)
  {
    forall i, k :: 0 <= i < |txs| && 0 <= k < |txs[i].inputs| ==> Resolve(store, txs[i].inputs[k]).Some?
  }

  /** Input `k` of transaction `i` is the first input, in the order the
      balance update visits them (transactions in array order, then their
      inputs in array order), that does not resolve against the store. */
  predicate FirstUnresolved(txs: seq<Transaction>, store: seq<Transaction>, i: int, k: int)
  {
    && 0 <= i < |txs| && 0 <= k < |txs[i].inputs|
    && Resolve(store, txs[i].inputs[k]).None?
    && (forall j, m :: 0 <= j < i && 0 <= m < |txs[j].inputs| ==> Resolve(store, txs[j].inputs[m]).Some?)
    && (forall m :: 0 <= m < k ==> Resolve(store, txs[i].inputs[m]).Some?)
  }

  /** There is at most one first unresolved input. */
  lemma FirstUnresolvedIsUnique(txs: seq<Transaction>, store: seq<Transaction>, i: int, k: int, i': int, k': int)
    requires FirstUnresolved(txs, store, i, k) && FirstUnresolved(txs, store, i', k')
    ensures i == i' && k == k'
  {
  }

  /** A missing key reads as 0, as `(m[a] || 0)` does. */
  function Get(m: map<string, int>, a: string): int
  {
    if a in m then m[a] else 0
  }

  /** Total value the outputs pay to `address`. */
  function PaidTo(outputs: seq<Output>, address: string): int
  {
    if outputs == [] then 0
    else
      var o := outputs[|outputs| - 1];
      PaidTo(outputs[..|outputs| - 1], address) + (if o.address == address then o.value else 0)
  }

  /** Total STORED value of the outputs owned by `address` that the inputs spend;
      an input that does not resolve contributes nothing. */
  function SpentFrom(inputs: seq<Input>, address: string, store: seq<Transaction>): int
  {
    if inputs == [] then 0
    else
      var spent := Resolve(store, inputs[|inputs| - 1]);
      SpentFrom(inputs[..|inputs| - 1], address, store)
        + (if spent.Some? && spent.value.address == address then spent.value.value else 0)
  }

  /** Total DECLARED value of the inputs that spend outputs owned by `address`. */
  function DeclaredSpendFrom(inputs: seq<Input>, address: string, store: seq<Transaction>): int
  {
    if inputs == [] then 0
    else
      var input := inputs[|inputs| - 1];
      var spent := Resolve(store, input);
      DeclaredSpendFrom(inputs[..|inputs| - 1], address, store)
        + (if spent.Some? && spent.value.address == address then input.value else 0)
  }

  /** Addresses the outputs pay to. */
  function Payees(outputs: seq<Output>): set<string>
  {
    if outputs == [] then {}
    else Payees(outputs[..|outputs| - 1]) + {outputs[|outputs| - 1].address}
  }

  /** Owners of the stored outputs the inputs spend. */
  function Owners(inputs: seq<Input>, store: seq<Transaction>): set<string>
  {
    if inputs == [] then {}
    else
      var spent := Resolve(store, inputs[|inputs| - 1]);
      Owners(inputs[..|inputs| - 1], store) + (if spent.Some? then {spent.value.address} else {})
  }

  /** Net effect of one transaction on `address`: what it is paid minus the
      stored value of its outputs that the transaction spends. */
  function TxNet(tx: Transaction, address: string, store: seq<Transaction>): int
  {
    PaidTo(tx.outputs, address) - SpentFrom(tx.inputs, address, store)
  }

  /** Net effect of a block's transactions on `address`. */
  function NetChange(txs: seq<Transaction>, address: string, store: seq<Transaction>): int
  {
    if txs == [] then 0
    else NetChange(txs[..|txs| - 1], address, store) + TxNet(txs[|txs| - 1], address, store)
  }

  /** Addresses a block's transactions pay or spend from. */
  function Touched(txs: seq<Transaction>, store: seq<Transaction>): set<string>
  {
    if txs == [] then {}
    else
      var tx := txs[|txs| - 1];
      Touched(txs[..|txs| - 1], store) + Payees(tx.outputs) + Owners(tx.inputs, store)
  }

  /** The delta map `updateBalances` is meant to build: one entry per touched
      address, holding that address's net change. Any other address has net
      change 0, so the map also answers correctly (through `Get`) for it. */
  function NetChanges(txs: seq<Transaction>, store: seq<Transaction>): (m: map<string, int>)
    ensures m.Keys == Touched(txs, store)
    ensures forall a :: Get(m, a) == NetChange(txs, a, store)
  {
    UntouchedNetsAreZero(txs, store);
    map a | a in Touched(txs, store) :: NetChange(txs, a, store)
  }

  /** Total credited to `address` by the outputs of the transactions. */
  function Credits(txs: seq<Transaction>, address: string): int
  {
    if txs == [] then 0
    else Credits(txs[..|txs| - 1], address) + PaidTo(txs[|txs| - 1].outputs, address)
  }

  /** Total declared value of the inputs of the transactions that spend
      outputs owned by `address`. */
  function Debits(txs: seq<Transaction>, address: string, store: seq<Transaction>): int
  {
    if txs == [] then 0
    else Debits(txs[..|txs| - 1], address, store) + DeclaredSpendFrom(txs[|txs| - 1].inputs, address, store)
  }

  /** The balance the stored rows give `address`: every output row paid to it,
      minus the declared value of every input row that spends one of them. */
  function LedgerBalance(blocks: seq<Block>, address: string): int
  {
    var store := AllTransactions(blocks);
    Credits(store, address) - Debits(store, address, store)
  }

  /** No stored output pays `address`. */
  predicate NeverPaid(store: seq<Transaction>, address: string)
  {
    forall i, k :: 0 <= i < |store| && 0 <= k < |store[i].outputs| ==> store[i].outputs[k].address != address
  }

  // ----- lemmas -----

  lemma {:induction false} ResolvedIsStored(store: seq<Transaction>, input: Input)
    requires Resolve(store, input).Some?
    ensures exists i, k :: 0 <= i < |store| && 0 <= k < |store[i].outputs|
                           && store[i].outputs[k] == Resolve(store, input).value
  {
    var tx := FindTransaction(store, input.txId).value;
    var i :| 0 <= i < |store| && store[i] == tx;
    assert store[i].outputs[input.index] == Resolve(store, input).value;
  }

  lemma {:induction false} NeverPaidSpendsNothing(inputs: seq<Input>, address: string, store: seq<Transaction>)
    requires NeverPaid(store, address)
    ensures DeclaredSpendFrom(inputs, address, store) == 0
  {
    if inputs != [] {
      NeverPaidSpendsNothing(inputs[..|inputs| - 1], address, store);
      var spent := Resolve(store, inputs[|inputs| - 1]);
      if spent.Some? {
        ResolvedIsStored(store, inputs[|inputs| - 1]);
      }
    }
  }

  lemma {:induction false} NeverPaidIsNotCredited(txs: seq<Transaction>, address: string, store: seq<Transaction>)
    requires NeverPaid(txs, address) && NeverPaid(store, address)
    ensures Credits(txs, address) == 0 && Debits(txs, address, store) == 0
  {
    if txs != [] {
      var prefix := txs[..|txs| - 1];
      assert forall i :: 0 <= i < |prefix| ==> prefix[i] == txs[i];
      NeverPaidIsNotCredited(prefix, address, store);
      NeverPaidNotPaidTo(txs[|txs| - 1].outputs, address);
      NeverPaidSpendsNothing(txs[|txs| - 1].inputs, address, store);
    }
  }

  lemma {:induction false} NeverPaidNotPaidTo(outputs: seq<Output>, address: string)
    requires forall k :: 0 <= k < |outputs| ==> outputs[k].address != address
    ensures PaidTo(outputs, address) == 0
  {
    if outputs != [] {
      NeverPaidNotPaidTo(outputs[..|outputs| - 1], address);
    }
  }

  /** An address no stored output pays has balance 0 (the COALESCE to 0). */
  lemma UnpaidAddressHasZeroBalance(blocks: seq<Block>, address: string)
    requires NeverPaid(AllTransactions(blocks), address)
    ensures LedgerBalance(blocks, address) == 0
  {
    var store := AllTransactions(blocks);
    NeverPaidIsNotCredited(store, address, store);
  }

  lemma {:induction false} UnpaidOutputsPayNothing(outputs: seq<Output>, address: string)
    requires address !in Payees(outputs)
    ensures PaidTo(outputs, address) == 0
  {
    if outputs != [] {
      UnpaidOutputsPayNothing(outputs[..|outputs| - 1], address);
    }
  }

  lemma {:induction false} UnownedInputsSpendNothing(inputs: seq<Input>, address: string, store: seq<Transaction>)
    requires address !in Owners(inputs, store)
    ensures SpentFrom(inputs, address, store) == 0
  {
    if inputs != [] {
      UnownedInputsSpendNothing(inputs[..|inputs| - 1], address, store);
    }
  }

  /** An address that a block neither pays nor spends from has a net change of
      0, so leaving it out of the balance writes loses nothing. */
  lemma {:induction false} UntouchedNetIsZero(txs: seq<Transaction>, address: string, store: seq<Transaction>)
    requires address !in Touched(txs, store)
    ensures NetChange(txs, address, store) == 0
  {
    if txs != [] {
      var tx := txs[|txs| - 1];
      UntouchedNetIsZero(txs[..|txs| - 1], address, store);
      UnpaidOutputsPayNothing(tx.outputs, address);
      UnownedInputsSpendNothing(tx.inputs, address, store);
    }
  }

  lemma UntouchedNetsAreZero(txs: seq<Transaction>, store: seq<Transaction>)
    ensures forall a :: a !in Touched(txs, store) ==> NetChange(txs, a, store) == 0
  {
    forall a | a !in Touched(txs, store)
      ensures NetChange(txs, a, store) == 0
    {
      UntouchedNetIsZero(txs, a, store);
    }
  }

  /** A map that agrees with another on its keys and on every lookup is that map. */
  lemma SameDeltas(m: map<string, int>, txs: seq<Transaction>, store: seq<Transaction>)
    requires m.Keys == Touched(txs, store)
    requires forall a :: Get(m, a) == NetChange(txs, a, store)
    ensures m == NetChanges(txs, store)
  {
    var n := NetChanges(txs, store);
    forall a | a in m
      ensures m[a] == n[a]
    {
      assert Get(m, a) == Get(n, a);
    }
  }
}
