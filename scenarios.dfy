/** The ledger's worked scenarios, stated on the model and proved: a genesis block paying
    addr1 10, a block spending that output to addr2 and addr3, a block
    submitted out of order, and a rollback to height 1. Each method returns
    what a client would observe, and its postcondition states and proves the values. The hash
    is the identity on the preimage, which keeps the two block ids distinct. */
module Scenarios {
  import opened LedgerTypes
  import opened Accounting
  import opened Validation
  import opened Store
  import opened Service

  function Identity(s: string): string { s }

  const GenesisTx := Transaction("t1", [], [Output("addr1", 10)])
  const SpendTx := Transaction("t2", [Input("t1", 0, 10)], [Output("addr2", 5), Output("addr3", 5)])

  /** A block of height 2 on an empty ledger is refused with the expected
      height 1, and nothing is stored. */
  method OutOfOrderBlockRejected() returns (outcome: Outcome, height: int)
    ensures outcome == Fail(InvalidHeight(1, 2))
    ensures height == 0
  {
    var store := new BlockModel();
    var service := new BlockchainService(store, Identity);
    var stamped;
    stamped, outcome := service.ProcessBlock(Block("", 2, [GenesisTx]));
    height := store.CurrentHeight();
  }

  const GenesisBlock := Block("1t1", 1, [GenesisTx])
  const SpendBlock := Block("2t2", 2, [SpendTx])

  // What the definitions give on the scenario's data.

  lemma GenesisLedgerFacts()
    ensures AllTransactions([GenesisBlock]) == [GenesisTx]
    ensures NetChanges([GenesisTx], [GenesisTx]) == map["addr1" := 10]
    ensures LedgerBalance([GenesisBlock], "addr1") == 10
    ensures !NeverPaid([GenesisTx], "addr1")
    ensures NeverPaid([GenesisTx], "addr2") && NeverPaid([GenesisTx], "addr3")
  {
    AllTransactionsAppend([], GenesisBlock);
    assert [GenesisTx][..0] == [];
    assert GenesisTx.outputs[..0] == [];
    assert [GenesisTx][0].outputs[0].address == "addr1";
    assert PaidTo(GenesisTx.outputs, "addr1") == 10;
    assert Credits([GenesisTx], "addr1") == 10;
    assert Debits([GenesisTx], "addr1", [GenesisTx]) == 0;
    assert Touched([GenesisTx], [GenesisTx]) == {"addr1"};
    assert NetChange([GenesisTx], "addr1", [GenesisTx]) == 10;
  }

  const SpendInput := Input("t1", 0, 10)

  lemma SpendStoreFacts()
    ensures AllTransactions([GenesisBlock, SpendBlock]) == [GenesisTx, SpendTx]
    ensures Resolve([GenesisTx, SpendTx], SpendInput) == Some(Output("addr1", 10))
    ensures AllResolved([SpendTx], [GenesisTx, SpendTx])
  {
    GenesisLedgerFacts();
    assert [GenesisBlock, SpendBlock][..1] == [GenesisBlock];
    AllTransactionsAppend([GenesisBlock], SpendBlock);
    assert [GenesisTx, SpendTx][0].id == "t1";
    assert SpendTx.inputs == [SpendInput];
  }

  lemma SpendNetFacts()
    ensures NetChanges([SpendTx], [GenesisTx, SpendTx]) == map["addr1" := -10, "addr2" := 5, "addr3" := 5]
  {
    var all := [GenesisTx, SpendTx];
    SpendStoreFacts();
    assert SpendTx.inputs[..0] == [];
    assert SpendTx.outputs[..1] == [Output("addr2", 5)];
    assert SpendTx.outputs[..1][..0] == [];
    assert [SpendTx][..0] == [];
    assert Payees(SpendTx.outputs) == {"addr2", "addr3"};
    assert Owners(SpendTx.inputs, all) == {"addr1"};
    assert Touched([SpendTx], all) == {"addr1", "addr2", "addr3"};
    assert PaidTo(SpendTx.outputs, "addr1") == 0;
    assert PaidTo(SpendTx.outputs, "addr2") == 5;
    assert PaidTo(SpendTx.outputs, "addr3") == 5;
    assert SpentFrom(SpendTx.inputs, "addr1", all) == 10;
    assert SpentFrom(SpendTx.inputs, "addr2", all) == 0;
    assert SpentFrom(SpendTx.inputs, "addr3", all) == 0;
    assert TxNet(SpendTx, "addr1", all) == -10;
    assert TxNet(SpendTx, "addr2", all) == 5;
    assert TxNet(SpendTx, "addr3", all) == 5;
    assert NetChange([SpendTx], "addr1", all) == -10;
    assert NetChange([SpendTx], "addr2", all) == 5;
    assert NetChange([SpendTx], "addr3", all) == 5;
    var nets := NetChanges([SpendTx], all);
    assert Get(nets, "addr1") == -10 && Get(nets, "addr2") == 5 && Get(nets, "addr3") == 5;
  }

  lemma SpendBalanceFacts()
    ensures LedgerBalance([GenesisBlock, SpendBlock], "addr1") == 0
    ensures LedgerBalance([GenesisBlock, SpendBlock], "addr2") == 5
    ensures LedgerBalance([GenesisBlock, SpendBlock], "addr3") == 5
    ensures !NeverPaid([GenesisTx, SpendTx], "addr1")
    ensures !NeverPaid([GenesisTx, SpendTx], "addr2")
    ensures !NeverPaid([GenesisTx, SpendTx], "addr3")
  {
    var all := [GenesisTx, SpendTx];
    SpendStoreFacts();
    assert all[..1] == [GenesisTx];
    assert [GenesisTx][..0] == [];
    assert GenesisTx.outputs[..0] == [];
    assert SpendTx.inputs[..0] == [];
    assert SpendTx.outputs[..1] == [Output("addr2", 5)];
    assert SpendTx.outputs[..1][..0] == [];
    assert all[0].outputs[0].address == "addr1";
    assert all[1].outputs[0].address == "addr2";
    assert all[1].outputs[1].address == "addr3";
    assert PaidTo(SpendTx.outputs, "addr1") == 0;
    assert PaidTo(SpendTx.outputs, "addr2") == 5;
    assert PaidTo(SpendTx.outputs, "addr3") == 5;
    assert PaidTo(GenesisTx.outputs, "addr1") == 10;
    assert PaidTo(GenesisTx.outputs, "addr2") == 0;
    assert PaidTo(GenesisTx.outputs, "addr3") == 0;
    assert DeclaredSpendFrom(SpendTx.inputs, "addr1", all) == 10;
    assert DeclaredSpendFrom(SpendTx.inputs, "addr2", all) == 0;
    assert DeclaredSpendFrom(SpendTx.inputs, "addr3", all) == 0;
    assert Debits(all[..1], "addr1", all) == 0;
    assert Debits(all[..1], "addr2", all) == 0;
    assert Debits(all[..1], "addr3", all) == 0;
    assert Credits(all[..1], "addr1") == 10;
    assert Credits(all[..1], "addr2") == 0;
    assert Credits(all[..1], "addr3") == 0;
    assert Credits(all, "addr1") == 10 && Debits(all, "addr1", all) == 10;
    assert Credits(all, "addr2") == 5 && Debits(all, "addr2", all) == 0;
    assert Credits(all, "addr3") == 5 && Debits(all, "addr3", all) == 0;
  }

  lemma GenesisAccepted()
    ensures AssignId(Block("", 1, [GenesisTx]), Identity) == GenesisBlock
    ensures BlockIsValid(GenesisBlock, 0, Identity)
    ensures Insertable([], GenesisBlock)
    ensures AllResolved([GenesisTx], [GenesisTx])
  {
    assert Preimage(Block("", 1, [GenesisTx])) == "1t1" by {
      assert HeightText(1) == "1";
      assert ConcatIds([GenesisTx]) == "t1";
    }
    assert Preimage(GenesisBlock) == "1t1";
    assert TransactionIsValid(GenesisTx, 1);
  }

  lemma SpendAccepted()
    ensures AssignId(Block("", 2, [SpendTx]), Identity) == SpendBlock
    ensures BlockIsValid(SpendBlock, 1, Identity)
    ensures Insertable([GenesisBlock], SpendBlock)
  {
    assert Preimage(Block("", 2, [SpendTx])) == "2t2" by {
      assert HeightText(2) == "2";
      assert ConcatIds([SpendTx]) == "t2";
    }
    assert Preimage(SpendBlock) == "2t2";
    assert TransactionIsValid(SpendTx, 2);
    GenesisLedgerFacts();
    assert FindTransaction([GenesisTx], "t2").None?;
  }

  lemma RollbackToGenesisFacts()
    ensures Prune([GenesisBlock, SpendBlock], 1) == [GenesisBlock]
  {
    assert [GenesisBlock, SpendBlock][..1] == [GenesisBlock];
    assert [GenesisBlock][..0] == [];
    assert Prune([GenesisBlock], 1) == [GenesisBlock];
  }

  /** Genesis on an empty ledger: accepted; the balances table holds 20 for
      addr1, since the delta is added to a balance that already counts the
      new block. */
  method Genesis() returns (store: BlockModel, service: BlockchainService)
    ensures fresh(store) && service.model == store && service.hash == Identity
    ensures store.blocks == [GenesisBlock]
    ensures store.balances == map["addr1" := 20]
  {
    GenesisAccepted();
    GenesisLedgerFacts();
    store := new BlockModel();
    service := new BlockchainService(store, Identity);
    var stamped, outcome := service.ProcessBlock(Block("", 1, [GenesisTx]));
    assert outcome.Pass?;
    GenesisProjection();
  }

  /** After genesis, addr1's balance is 10, but the balances table holds 20. */
  method GenesisCountsTwiceInProjection() returns (balance: int, projected: int)
    ensures balance == 10
    ensures projected == 20
  {
    var store, service := Genesis();
    GenesisLedgerFacts();
    balance := service.GetBalance("addr1");
    projected := store.balances["addr1"];
  }

  /** The balances rows the genesis block's update writes: addr1 gets its
      derived balance, which already counts the block, plus the block's 10. */
  lemma GenesisProjection()
    ensures map[] + Upserts([GenesisBlock], NetChanges([GenesisTx], [GenesisTx])) == map["addr1" := 20]
  {
    GenesisLedgerFacts();
  }

  /** The balances rows after the spend: addr1's row is overwritten and rows
      for addr2 and addr3 are added, each with the derived balance plus the
      block's net change. */
  lemma SpendProjection()
    ensures map["addr1" := 20] + Upserts([GenesisBlock, SpendBlock], NetChanges([SpendTx], [GenesisTx, SpendTx]))
            == map["addr1" := -10, "addr2" := 10, "addr3" := 10]
  {
    SpendNetFacts();
    SpendBalanceFacts();
    var rows := Upserts([GenesisBlock, SpendBlock], map["addr1" := -10, "addr2" := 5, "addr3" := 5]);
    assert rows["addr1"] == -10 && rows["addr2"] == 10 && rows["addr3"] == 10;
  }

  /** Genesis, then the spend of its output: both blocks are
      stored; the ledger rows give addr1, addr2 and addr3 the balances 0, 5
      and 5, while the balances table reads -10, 10 and 10. */
  method GenesisThenSpend() returns (store: BlockModel, balances: seq<int>)
    ensures fresh(store)
    ensures store.blocks == [GenesisBlock, SpendBlock]
    ensures store.balances == map["addr1" := -10, "addr2" := 10, "addr3" := 10]
    ensures balances == [0, 5, 5]
  {
    var service;
    store, service := Genesis();
    SpendAccepted();
    assert store.CurrentHeight() == 1;
    var stamped, outcome := service.ProcessBlock(Block("", 2, [SpendTx]));
    assert stamped == SpendBlock;
    assert store.blocks == [GenesisBlock, SpendBlock];
    SpendStoreFacts();
    assert outcome.Pass?;
    SpendProjection();
    SpendBalanceFacts();
    balances := [service.GetBalance("addr1"), service.GetBalance("addr2"), service.GetBalance("addr3")];
  }

  /** A rollback to height 1 after the spend: the store is back to
      the genesis block and the ledger rows give 10, 0, 0 again, but the
      balances table still reads -10, 10, 10. */
  method RollbackLeavesProjectionStale() returns (height: int, balances: seq<int>, projected: seq<int>)
    ensures height == 1
    ensures balances == [10, 0, 0]
    ensures projected == [-10, 10, 10]
  {
    var store, _ := GenesisThenSpend();
    var service := new BlockchainService(store, Identity);
    service.RollbackToHeight(1);
    RollbackToGenesisFacts();
    GenesisLedgerFacts();
    height := store.CurrentHeight();
    balances := [service.GetBalance("addr1"), service.GetBalance("addr2"), service.GetBalance("addr3")];
    projected := [store.balances["addr1"], store.balances["addr2"], store.balances["addr3"]];
  }

  /** The same rollback with the reconciling variant: the balances table
      reads 10, 0, 0, the values the ledger had before the spend. */
  method ReconciledRollbackRestoresProjection() returns (projected: seq<int>)
    ensures projected == [10, 0, 0]
  {
    var store, _ := GenesisThenSpend();
    store.RollbackToHeightReconciled(1);
    RollbackToGenesisFacts();
    GenesisLedgerFacts();
    projected := [store.balances["addr1"], store.balances["addr2"], store.balances["addr3"]];
  }
}
