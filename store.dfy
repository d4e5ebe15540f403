/** BlockModel (src/models/blockModel.ts): the relational store. Its tables
    are kept as two fields: the accepted blocks in insertion order (each
    carrying its transactions, inputs and outputs, so a block's rows come and
    go together) and the balance projection. Each operation is one atomic
    step, as the SQL transactions around the writes intend. */
module Store {
  import opened LedgerTypes
  import opened Accounting

  /** `SELECT MAX(height) ... || 0`: the largest stored height, 0 when no
      block is stored. */
  function CurrentHeightOf(blocks: seq<Block>): (h: int)
    ensures blocks == [] ==> h == 0
    ensures forall i :: 0 <= i < |blocks| ==> blocks[i].height <= h
    ensures blocks != [] ==> exists i :: 0 <= i < |blocks| && blocks[i].height == h
  {
    if blocks == [] then 0
    else if |blocks| == 1 then blocks[0].height
    else
      var rest := CurrentHeightOf(blocks[..|blocks| - 1]);
      var last := blocks[|blocks| - 1].height;
      assert forall i :: 0 <= i < |blocks| - 1 ==> blocks[..|blocks| - 1][i] == blocks[i];
      if rest < last then last else rest
  }

  /** Heights run 1, 2, 3, ... without a gap, in storage order. */
  predicate HeightsGapless(blocks: seq<Block>)
  {
    forall i :: 0 <= i < |blocks| ==> blocks[i].height == i + 1
  }

  /** On a gapless ledger the current height is the number of blocks. */
  lemma GaplessCurrentHeight(blocks: seq<Block>)
    requires HeightsGapless(blocks)
    ensures CurrentHeightOf(blocks) == |blocks|
  {
    if blocks != [] {
      var i :| 0 <= i < |blocks| && blocks[i].height == CurrentHeightOf(blocks);
      assert blocks[|blocks| - 1].height == |blocks|;
    }
  }

  /** The blocks `DELETE ... WHERE height > h` leaves, in their order. */
  function Prune(blocks: seq<Block>, h: int): seq<Block>
  {
    if blocks == [] then []
    else
      var last := blocks[|blocks| - 1];
      Prune(blocks[..|blocks| - 1], h) + (if last.height <= h then [last] else [])
  }

  /** Pruning removes every block above `h` and keeps every block at or below it. */
  lemma {:induction false} PruneKeepsExactly(blocks: seq<Block>, h: int)
    ensures forall b :: b in Prune(blocks, h) <==> b in blocks && b.height <= h
  {
    if blocks != [] {
      var prefix := blocks[..|blocks| - 1];
      PruneKeepsExactly(prefix, h);
      assert blocks == prefix + [blocks[|blocks| - 1]];
    }
  }

  /** Pruning twice at the same height is pruning once. */
  lemma {:induction false} PruneIdempotent(blocks: seq<Block>, h: int)
    ensures Prune(Prune(blocks, h), h) == Prune(blocks, h)
  {
    if blocks != [] {
      var prefix := blocks[..|blocks| - 1];
      var last := blocks[|blocks| - 1];
      PruneIdempotent(prefix, h);
      var once := Prune(prefix, h);
      if last.height <= h {
        var pruned := once + [last];
        assert Prune(blocks, h) == pruned;
        assert pruned[..|pruned| - 1] == once;
        assert Prune(pruned, h) == Prune(once, h) + [last];
      } else {
        assert Prune(blocks, h) == once + [];
        assert once + [] == once;
      }
    }
  }

  /** Pruning at or above the current height removes nothing. */
  lemma {:induction false} PruneAtOrAboveTopIsNoOp(blocks: seq<Block>, h: int)
    requires h >= CurrentHeightOf(blocks)
    ensures Prune(blocks, h) == blocks
  {
    if blocks != [] {
      var prefix := blocks[..|blocks| - 1];
      if prefix != [] {
        var i :| 0 <= i < |prefix| && prefix[i].height == CurrentHeightOf(prefix);
        assert prefix[i] == blocks[i];
        PruneAtOrAboveTopIsNoOp(prefix, h);
      }
      assert blocks == prefix + [blocks[|blocks| - 1]];
    }
  }

  /** On a gapless ledger, pruning at a non-negative `h` keeps exactly the
      first min(h, |blocks|) blocks, so heights stay gapless. */
  lemma {:induction false} PruneGaplessIsPrefix(blocks: seq<Block>, h: int)
    requires HeightsGapless(blocks) && h >= 0
    ensures Prune(blocks, h) == blocks[..if h < |blocks| then h else |blocks|]
  {
    if blocks != [] {
      var prefix := blocks[..|blocks| - 1];
      assert HeightsGapless(prefix);
      PruneGaplessIsPrefix(prefix, h);
    }
  }

  /** After pruning a gapless ledger at `h >= 0`, heights are still gapless and
      the current height is min(old height, h). */
  lemma PruneGaplessHeight(blocks: seq<Block>, h: int)
    requires HeightsGapless(blocks) && h >= 0
    ensures HeightsGapless(Prune(blocks, h))
    ensures CurrentHeightOf(Prune(blocks, h)) == if h < CurrentHeightOf(blocks) then h else CurrentHeightOf(blocks)
  {
    PruneGaplessIsPrefix(blocks, h);
    GaplessCurrentHeight(blocks);
    GaplessCurrentHeight(Prune(blocks, h));
  }

  /** The indexes the inputs reference are pairwise distinct. */
  predicate DistinctIndexes(inputs: seq<Input>)
  {
    forall i, j :: 0 <= i < j < |inputs| ==> inputs[i].index != inputs[j].index
  }

  /** The addresses the outputs pay are pairwise distinct. */
  predicate DistinctPayees(outputs: seq<Output>)
  {
    forall i, j :: 0 <= i < j < |outputs| ==> outputs[i].address != outputs[j].address
  }

  /** Inserting `b` keeps every key of the schema (src/config/initDB.ts):
      block id, transaction id, (transaction, index) of an input and
      (transaction, address) of an output are each unique. */
  predicate Insertable(blocks: seq<Block>, b: Block)
  {
    && (forall i :: 0 <= i < |blocks| ==> blocks[i].id != b.id)
    && (forall i :: 0 <= i < |b.transactions| ==> FindTransaction(AllTransactions(blocks), b.transactions[i].id).None?)
    && (forall i, j :: 0 <= i < j < |b.transactions| ==> b.transactions[i].id != b.transactions[j].id)
    && (forall i :: 0 <= i < |b.transactions| ==>
          DistinctIndexes(b.transactions[i].inputs) && DistinctPayees(b.transactions[i].outputs))
  }

  /** Inserting a block that keeps every key keeps transaction ids unique. */
  lemma InsertKeepsTxIdsUnique(blocks: seq<Block>, b: Block)
    requires UniqueTxIds(AllTransactions(blocks)) && Insertable(blocks, b)
    ensures UniqueTxIds(AllTransactions(blocks + [b]))
  {
    var stored := AllTransactions(blocks);
    AllTransactionsAppend(blocks, b);
    forall x, y | x in stored && y in b.transactions
      ensures x.id != y.id
    {
      var j :| 0 <= j < |b.transactions| && b.transactions[j] == y;
      assert FindTransaction(stored, y.id).None?;
    }
    UniqueConcat(stored, b.transactions);
  }

  /** Appending an insertable block keeps unique transaction ids unique, and
      appending at current height + 1 keeps heights gapless. */
  lemma AppendKeepsInvariants(blocks: seq<Block>, b: Block)
    requires Insertable(blocks, b)
    ensures UniqueTxIds(AllTransactions(blocks)) ==> UniqueTxIds(AllTransactions(blocks + [b]))
    ensures HeightsGapless(blocks) && b.height == CurrentHeightOf(blocks) + 1 ==> HeightsGapless(blocks + [b])
  {
    if UniqueTxIds(AllTransactions(blocks)) {
      InsertKeepsTxIdsUnique(blocks, b);
    }
    if HeightsGapless(blocks) {
      GaplessCurrentHeight(blocks);
    }
  }

  /** Every transaction left by a rollback was stored before it. */
  lemma {:induction false} PruneTxsAreStored(blocks: seq<Block>, h: int)
    ensures forall t :: t in AllTransactions(Prune(blocks, h)) ==> t in AllTransactions(blocks)
  {
    if blocks != [] {
      var prefix := blocks[..|blocks| - 1];
      var last := blocks[|blocks| - 1];
      PruneTxsAreStored(prefix, h);
      assert blocks == prefix + [last];
      AllTransactionsAppend(prefix, last);
      if last.height <= h {
        AllTransactionsAppend(Prune(prefix, h), last);
      } else {
        assert Prune(blocks, h) == Prune(prefix, h) + [];
        assert Prune(prefix, h) + [] == Prune(prefix, h);
      }
    }
  }

  /** What a rollback keeps: exactly the blocks at or below `h`, all of them
      when `h` is at or above the top, gapless heights, unique transaction ids. */
  lemma PruneKeepsInvariants(blocks: seq<Block>, h: int)
    ensures forall b :: b in Prune(blocks, h) <==> b in blocks && b.height <= h
    ensures h >= CurrentHeightOf(blocks) ==> Prune(blocks, h) == blocks
    ensures HeightsGapless(blocks) && h >= 0 ==>
              HeightsGapless(Prune(blocks, h))
              && CurrentHeightOf(Prune(blocks, h)) == if h < CurrentHeightOf(blocks) then h else CurrentHeightOf(blocks)
    ensures UniqueTxIds(AllTransactions(blocks)) ==> UniqueTxIds(AllTransactions(Prune(blocks, h)))
  {
    PruneKeepsExactly(blocks, h);
    if UniqueTxIds(AllTransactions(blocks)) {
      PruneKeepsTxIdsUnique(blocks, h);
    }
    if h >= CurrentHeightOf(blocks) {
      PruneAtOrAboveTopIsNoOp(blocks, h);
    }
    if HeightsGapless(blocks) && h >= 0 {
      PruneGaplessHeight(blocks, h);
    }
  }

  /** A rollback keeps transaction ids unique. */
  lemma {:induction false} PruneKeepsTxIdsUnique(blocks: seq<Block>, h: int)
    requires UniqueTxIds(AllTransactions(blocks))
    ensures UniqueTxIds(AllTransactions(Prune(blocks, h)))
  {
    if blocks != [] {
      var prefix := blocks[..|blocks| - 1];
      var last := blocks[|blocks| - 1];
      assert blocks == prefix + [last];
      AllTransactionsAppend(prefix, last);
      UniqueConcat(AllTransactions(prefix), last.transactions);
      PruneKeepsTxIdsUnique(prefix, h);
      if last.height <= h {
        AllTransactionsAppend(Prune(prefix, h), last);
        PruneTxsAreStored(prefix, h);
        UniqueConcat(AllTransactions(Prune(prefix, h)), last.transactions);
      } else {
        assert Prune(blocks, h) == Prune(prefix, h) + [];
        assert Prune(prefix, h) + [] == Prune(prefix, h);
      }
    }
  }

  /** The balance rows `updateBalances` upserts for a delta map, given the
      ledger it reads the balances from: each address of the map gets its
      derived balance plus its delta. */
  function Upserts(blocks: seq<Block>, deltas: map<string, int>): (rows: map<string, int>)
    ensures rows.Keys == deltas.Keys
  {
    map a | a in deltas :: LedgerBalance(blocks, a) + deltas[a]
  }

  class BlockModel {
    /** The blocks table with its transactions, inputs and outputs. */
    var blocks: seq<Block>
    /** The balances table: the projection the service writes. */
    var balances: map<string, int>

    /** A store over an empty database. */
    constructor ()
      ensures blocks == [] && balances == map[]
    {
      blocks := [];
      balances := map[];
    }

    ghost predicate Gapless()
      reads this`blocks
    {
      HeightsGapless(blocks)
    }

    /** Every stored transaction, in insertion order. */
    function Transactions(): seq<Transaction>
      reads this`blocks
    {
      AllTransactions(blocks)
    }

    /** `getCurrentHeight` */
    function CurrentHeight(): int
      reads this`blocks
    {
      CurrentHeightOf(blocks)
    }

    /** `createBlock`: the block and all its rows are inserted together, or,
        when an insert breaks a key, none are. */
    method CreateBlock(b: Block) returns (outcome: Outcome)
      modifies this`blocks
      ensures outcome.Pass? <==> Insertable(old(blocks), b)
      ensures outcome.Pass? ==> blocks == old(blocks) + [b]
      ensures outcome.Fail? ==> outcome == Fail(StorageConflict) && blocks == old(blocks)
      ensures outcome.Pass? && old(Gapless()) && b.height == old(CurrentHeight()) + 1 ==> Gapless()
      ensures old(UniqueTxIds(Transactions())) ==> UniqueTxIds(Transactions())
    {
      if Insertable(blocks, b) {
        AppendKeepsInvariants(blocks, b);
        blocks := blocks + [b];
        outcome := Pass;
      } else {
        outcome := Fail(StorageConflict);
      }
    }

    /** `getTransaction`: the stored transaction with the id (the only one,
        since ids are unique) or "Transaction not found". */
    function GetTransaction(txId: string): (r: Result<Transaction>)
      reads this`blocks
      ensures r.Success? <==> exists i :: 0 <= i < |Transactions()| && Transactions()[i].id == txId
      ensures r.Success? ==> r.value in Transactions() && r.value.id == txId
      ensures r.Failure? ==> r.error == TransactionNotFound(txId)
      ensures UniqueTxIds(Transactions()) ==>
                forall t :: t in Transactions() && t.id == txId ==> r == Success(t)
    {
      FindUniqueAll(Transactions());
      match FindTransaction(Transactions(), txId)
      case Some(tx) => Success(tx)
      case None => Failure(TransactionNotFound(txId))
    }

    /** `getBalance`: derived from the ledger rows, not read from the balances
        table; 0 for an address that no stored output pays. */
    function GetBalance(address: string): (balance: int)
      reads this`blocks
      ensures balance == LedgerBalance(blocks, address)
      ensures NeverPaid(Transactions(), address) ==> balance == 0
    {
      if NeverPaid(Transactions(), address) then UnpaidAddressHasZeroBalance(blocks, address); 0
      else LedgerBalance(blocks, address)
    }

    /** `updateBalance`: insert, or overwrite on conflict. */
    method UpdateBalance(address: string, newBalance: int)
      modifies this`balances
      ensures balances == old(balances)[address := newBalance]
      ensures address in old(balances) && old(balances)[address] == newBalance ==> balances == old(balances)
    {
      balances := balances[address := newBalance];
    }

    /** `rollbackToHeight`, as written: blocks above `h` go, blocks at or below
        it stay, and the balances table is not touched, so it goes on
        reflecting the removed blocks. */
    method RollbackToHeight(h: int)
      modifies this`blocks
      ensures blocks == Prune(old(blocks), h)
      ensures forall b :: b in blocks <==> b in old(blocks) && b.height <= h
      ensures h >= old(CurrentHeight()) ==> blocks == old(blocks)
      ensures old(Gapless()) && h >= 0 ==>
                Gapless() && CurrentHeight() == if h < old(CurrentHeight()) then h else old(CurrentHeight())
      ensures balances == old(balances)
      ensures old(UniqueTxIds(Transactions())) ==> UniqueTxIds(Transactions())
    {
      PruneKeepsInvariants(blocks, h);
      blocks := Prune(blocks, h);
    }

    /** NOT IN THE SOURCE: the rollback with the balance projection reconciled.
        The blocks are pruned as `RollbackToHeight` prunes them, then every
        address in the balances table is rewritten with the balance the
        remaining ledger gives it. */
    method RollbackToHeightReconciled(h: int)
      modifies this
      ensures blocks == Prune(old(blocks), h)
      ensures balances.Keys == old(balances).Keys
      ensures forall a :: a in balances ==> balances[a] == GetBalance(a)
    {
      RollbackToHeight(h);
      var pending := balances.Keys;
      while pending != {}
        invariant pending <= balances.Keys
        invariant blocks == Prune(old(blocks), h)
        invariant balances.Keys == old(balances).Keys
        invariant forall a :: a in balances && a !in pending ==> balances[a] == GetBalance(a)
        decreases pending
      {
        var a :| a in pending;
        UpdateBalance(a, GetBalance(a));
        pending := pending - {a};
      }
    }
  }
}
