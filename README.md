# Ledger engine — a Dafny model

The ledger engine accepts blocks of UTXO-style transactions, keeps them in a
relational store, maintains a per-address balance projection, and can roll the
chain back to a given height. The model covers its two core files:

- `BlockchainService` (src/services/blockService.ts) does three things:
  - it assigns a block its content-hash id when the block has none;
  - it validates the block against the current height;
  - it inserts the block, then updates the balance projection from a per-address
    delta map.
- `BlockModel` (src/models/blockModel.ts) is the store. It supports insert,
  transaction lookup, the balance derived from the stored rows, the balance
  upsert, rollback and the current height.

Modules:

| file | module | contents |
|---|---|---|
| types.dfy | `LedgerTypes` | `Input`, `Output`, `Transaction`, `Block`, the error values, `Result`, `Outcome` |
| accounting.dfy | `Accounting` | transaction lookup, the balance the stored rows give an address, the net change a block causes |
| validation.dfy | `Validation` | the hash preimage, id assignment, the fail-fast validation of `validateBlock` |
| store.dfy | `Store` | class `BlockModel`: fields `blocks` and `balances`, and its operations |
| service.dfy | `Service` | class `BlockchainService`: `processBlock`, `updateBalances` with its loops, `updateBalance`, `rollbackToHeight`, `getBalance` |
| scenarios.dfy | `Scenarios` | the genesis / spend / rollback scenarios, stated on the model, with the values they produce proved |

Modelling choices:

- **The hash.** SHA-256 is a constant `hash: string -> string` of the service.
  Nothing depends on what it computes.
- **The preimage.** The preimage is the decimal text of the height followed by
  the transaction ids in array order.
- **Absent ids.** An absent block id and an empty one are both `""`, since both
  are falsy in JavaScript.
- **The store.** `BlockModel.blocks` holds the accepted blocks in insertion
  order, together with their transactions, inputs and outputs.
  `BlockModel.balances` is the balances table.
- **Insert failures.** Insertion fails with `StorageConflict` exactly when a
  primary key declared in src/config/initDB.ts would be violated: block id,
  transaction id, (transaction, input index) or (transaction, output address).
- **Reading a balance.** `getBalance` reads nothing from the balances table. It
  derives the balance from the ledger rows: every output paid to the address,
  minus the declared value of every input that spends one of those outputs.

The model keeps the source's behaviour where it departs from what a ledger
should do, and proves it:

- **Double counting.** `updateBalance` adds the block's delta to `getBalance`,
  which already counts the newly inserted block. With the balance read as a
  number, as `getBalance` declares it, the projection for addr1 after the
  genesis block is therefore 20 while `getBalance` says 10
  (`Scenarios.GenesisCountsTwiceInProjection`).
- **Stale projection after rollback.** `rollbackToHeight` removes blocks and
  leaves the balances table as it was (`Store.BlockModel.RollbackToHeight`,
  `Scenarios.RollbackLeavesProjectionStale`).
- **Commit before balance update.** `createBlock` commits before
  `updateBalances` runs. A reference that cannot be resolved therefore leaves
  the block stored and the projection untouched
  (`Service.BlockchainService.ProcessBlock`).

`Store.BlockModel.RollbackToHeightReconciled` is not in the source. It is a
rollback that also rewrites every projection row from the remaining ledger,
kept apart from the literal `RollbackToHeight`.

The transaction rule compares the declared input values with the output
values, while the delta map subtracts the stored values of the spent outputs.
Nothing checks that the two agree, and the model does not add such a check.

## Model

| member | source | states |
|---|---|---|
| Validation.AssignId | src/services/blockService.ts:18-23 | a block without an id gets the hash of its height text and concatenated transaction ids (so its id matches); a block with an id is returned unchanged; height and transactions are never changed |
| Validation.AssignedIdPassesIdCheck | src/services/blockService.ts:18-45 | once a missing id has been assigned, validation never fails with the invalid-id error |
| Validation.CheckTransaction | src/services/blockService.ts:49-64 | passes exactly when the transaction meets its height's rule; at height 1 a non-positive output total is reported before the presence of inputs; at other heights an invalid transaction is reported as unbalanced (declared input total against output total) |
| Validation.ValidateTransactions | src/services/blockService.ts:48-66 | passes exactly when every transaction is valid; on failure the error is that of the first invalid transaction in array order, and all earlier ones are valid |
| Validation.ValidateBlock | src/services/blockService.ts:34-67 | passes exactly when height = current + 1, the id matches the hash and every transaction is valid; a wrong height fails with (expected, got) before the id is looked at; a wrong id fails before any transaction is checked |
| Accounting.FindTransaction | src/models/blockModel.ts:78-92 | finds a transaction exactly when one with the id is stored, and what it finds is stored and has that id |
| Accounting.FindUnique | src/models/blockModel.ts:78-92 | on a store whose transaction ids are unique, the lookup finds the one transaction with the id |
| Accounting.FirstUnresolvedIsUnique | src/services/blockService.ts:73-84 | there is at most one first unresolvable input in the order the balance update visits inputs, so the error reported for it is determined |
| Accounting.NetChanges | src/services/blockService.ts:70-85 | the delta map has exactly the addresses the block pays or spends from, and reads for every address the outputs paid to it minus the stored values of the outputs it owns that the block spends |
| Accounting.UntouchedNetIsZero | src/services/blockService.ts:70-91 | an address the block neither pays nor spends from has net change 0, so leaving it out of the balance writes loses nothing |
| Accounting.UnpaidAddressHasZeroBalance | src/models/blockModel.ts:117-124 | an address no stored output pays has derived balance 0 |
| Store.CurrentHeightOf | src/models/blockModel.ts:166-174 | 0 on an empty store; otherwise the largest stored height (no block is higher, some block has it) |
| Store.GaplessCurrentHeight | src/models/blockModel.ts:166-174 | on a store whose heights run 1, 2, 3, ... the current height is the number of blocks |
| Store.PruneKeepsExactly | src/models/blockModel.ts:151-154 | a rollback to h keeps a block exactly when it was stored and its height is at most h |
| Store.PruneIdempotent | src/models/blockModel.ts:145-163 | rolling back twice to the same height is rolling back once |
| Store.PruneAtOrAboveTopIsNoOp | src/models/blockModel.ts:145-163 | rolling back to the current height or above removes nothing |
| Store.PruneGaplessIsPrefix | src/models/blockModel.ts:151-154 | on a gapless store, rolling back to h >= 0 keeps exactly the first min(h, number of blocks) blocks |
| Store.PruneGaplessHeight | src/models/blockModel.ts:145-174 | after rolling a gapless store back to h >= 0, heights are still gapless and the current height is min(old height, h) |
| Store.InsertKeepsTxIdsUnique | src/models/blockModel.ts:34-73 | inserting a block that keeps every key keeps the stored transaction ids unique |
| Store.PruneKeepsTxIdsUnique | src/models/blockModel.ts:145-163 | a rollback keeps the stored transaction ids unique |
| Store.AppendKeepsInvariants | src/models/blockModel.ts:34-73 | appending an insertable block keeps transaction ids unique, and appending at current height + 1 keeps heights gapless |
| Store.PruneKeepsInvariants | src/models/blockModel.ts:145-163 | a rollback keeps exactly the blocks at or below h, all of them when h is at or above the top, gapless heights with current height min(old, h), and unique transaction ids |
| Store.BlockModel.CreateBlock | src/models/blockModel.ts:34-73 | all or nothing: succeeds exactly when no key is violated, and then appends the block with all its rows; otherwise fails with a storage conflict and the store is unchanged; appending at current height + 1 keeps heights gapless; unique transaction ids stay unique |
| Store.BlockModel.GetTransaction | src/models/blockModel.ts:78-111 | succeeds exactly when a transaction with the id is stored, returning a stored transaction with that id, and on a store with unique ids the transaction with that id; otherwise fails with "Transaction not found" |
| Store.BlockModel.GetBalance | src/models/blockModel.ts:114-128 | the balance the ledger rows give the address; 0 for an address no stored output pays |
| Store.BlockModel.UpdateBalance | src/models/blockModel.ts:131-142 | upsert: the address now maps to the new balance and every other row is unchanged; repeating the call changes nothing |
| Store.BlockModel.RollbackToHeight | src/models/blockModel.ts:145-163 | blocks above h are removed and those at or below kept, in order; a no-op when h is at or above the current height; gapless heights stay gapless with current height min(old, h); unique transaction ids stay unique; the balances table is untouched |
| Store.BlockModel.RollbackToHeightReconciled | src/models/blockModel.ts:145-163 | not in the source: prunes as the rollback does, then every row of the balances table equals the balance the remaining ledger gives it, and no row is added or dropped |
| Service.BlockchainService.ProcessBlock | src/services/blockService.ts:16-31 | succeeds exactly when the stamped block is valid, insertable and every input resolves; an invalid block fails with the validation error and stores nothing; a key conflict stores nothing; a valid insertable block is stored even when the balance update then fails, and the failure is then the lookup error of the first unresolvable input (transactions in order, then inputs in order); on failure the balances table is unchanged; unique transaction ids stay unique; on success every address the block touches is written with derived balance plus net change and no other row changes |
| Service.BlockchainService.BalanceDeltas | src/services/blockService.ts:70-85 | succeeds exactly when every input resolves, and then the map is the block's net-change map; otherwise the error is the lookup error of the first input, in loop order (transactions, then their inputs), that does not resolve |
| Service.BlockchainService.CreditOutputs | src/services/blockService.ts:75-77 | every payee of the outputs is added to the map, and each address gains what the outputs pay it |
| Service.BlockchainService.DebitInputs | src/services/blockService.ts:80-84 | succeeds exactly when every input resolves; then each owner of a spent output loses that output's stored value; otherwise the error is that of the first unresolvable input in array order (transaction not found, or no output at that index), every earlier input resolving |
| Service.BlockchainService.UpdateBalance | src/services/blockService.ts:93-97 | the address's row becomes its derived balance plus the delta; nothing else changes |
| Service.BlockchainService.ApplyDeltas | src/services/blockService.ts:87-90 | every address of the delta map, and no other, is written with derived balance plus delta |
| Service.BlockchainService.UpdateBalances | src/services/blockService.ts:70-91 | succeeds exactly when every input resolves, writing the touched addresses as ProcessBlock states; on a failed lookup nothing is written and the error is that of the first unresolvable input in loop order |
| Service.BlockchainService.RollbackToHeight | src/services/blockService.ts:100-102 | the store's rollback: blocks pruned at h, balances untouched, gapless heights kept, unique transaction ids kept unique |
| Service.BlockchainService.GetBalance | src/services/blockService.ts:105-116 | the store's derived balance; 0 for an address no stored output pays |
| Scenarios.OutOfOrderBlockRejected | src/services/blockService.ts:36-39 | a height-2 block on an empty ledger fails with expected height 1, got 2, and the height stays 0 |
| Scenarios.GenesisCountsTwiceInProjection | src/services/blockService.ts:88-97 | after the genesis block paying addr1 10, getBalance gives 10 while the balances table holds 20 (with the balance read as a number) |
| Scenarios.GenesisThenSpend | src/services/blockService.ts:16-31 | after genesis and a block spending its output to addr2 and addr3, both blocks are stored; getBalance gives 0, 5, 5 while the balances table holds -10, 10, 10 |
| Scenarios.RollbackLeavesProjectionStale | src/models/blockModel.ts:145-163 | rolling that ledger back to 1 gives height 1 and balances 10, 0, 0, while the balances table still holds -10, 10, 10 |
| Scenarios.ReconciledRollbackRestoresProjection | src/models/blockModel.ts:145-163 | with the reconciling rollback, the balances table holds 10, 0, 0 |

## Left out

- The HTTP layer (controller, routes, server wiring, error handler) is not part of this model. This includes the controller's `height <= 0` guard on rollback: the model's rollback accepts any height.
- The Postgres pool and table creation are not modelled. The primary keys declared there are used only to decide when an insert fails.
- SHA-256 is not modelled. The hash is a parameter, and no property of it is assumed.
- The request schema's bounds are not modelled as preconditions (height >= 1, output value >= 1). The model handles every height and value. Input indexes are `nat`, matching the schema's minimum of 0.
- Store.BlockModel.CreateBlock: models the intended rows, not the literal SQL text. The literal text repeats the placeholders `$1..$4` and sends an empty `VALUES` list when a block has no inputs.
- Store.BlockModel.GetTransaction: returns the stored transaction itself. The literal join returns the cross product of its inputs and outputs.
- Store.BlockModel.GetBalance: returns the balance as a number, as `getBalance` declares it. The driver returns the `SUM(...) - SUM(...)` (a Postgres `bigint`) as a string, and no type parser is installed. So `currentBalance + value` at src/services/blockService.ts:95 joins text (`"10" + 10` gives `"1010"`) instead of adding. That string result, and the joined text written to the balances table (or refused by its `INT` column), are not modelled. The projection values the model proves hold when the balance is read as a number.
- Store.BlockModel.GetBalance: models the intended rows (each output paid to the address once, minus the declared values of the inputs that spend it). The literal join pairs every output of a transaction with every input that references that transaction, whatever the index. It therefore repeats output rows and charges an input against every output of the transaction it references.
- Store.BlockModel.RollbackToHeight: removes a block together with all its rows. The literal statements delete the transactions before the input and output subqueries that select by them. Under the declared foreign keys (inputs and outputs reference transactions), the delete of the transactions is refused while their input and output rows remain, so the whole rollback is undone. Without those keys, the subqueries find nothing, and the input and output rows of the removed transactions survive and go on counting in `getBalance`. The model captures neither outcome.
- Service.BlockchainService.ProcessBlock: returns the stamped block instead of writing the id into the caller's object.
- Service.BlockchainService.ProcessBlock: treats `""` as the only absent id. Other falsy values (`undefined`, `null`) are not distinguished from it.
- Concurrency and async sequencing are not modelled. Each store call is one atomic step, so the race between reading the height and inserting is not captured.
- Database connection failures and other driver errors are not modelled. The only failures are key conflicts and unresolvable references.
- JavaScript number semantics (doubles, `NaN` from a missing input value, non-integer heights) are not modelled. Neither is the 32-bit range of the `INT` columns. Values are unbounded integers.
- Keys such as `__proto__` in the delta object are not modelled. The delta map is a plain map.
