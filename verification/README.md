# Verified model of the Beldex block store, quorum mesh, depth tool and batch guard

This project models the parts of Beldex that change state step by step and whose correctness
spans several operations, and proves what they keep over every input, every step and every run.

**The block store.** `Store` and `BlockOps` give each storage operation as a function on the
tables (spent images, transaction rows, hash index, index lists, per-amount output rows, global
output rows, two height indexes, block rows). The outcome of an operation that throws includes the
half-done tables. `BlockchainDB` is the store as an object with the loops of the program; every
method is proved against the function of the same name, on success and on every throw.
`Rounds` holds the loops as values: what every round keeps, when a loop goes through, and when
going backwards undoes going forwards. On top of that:

- `Undo`, `UndoExact`: popping a block undoes adding it, for every store and every accepted block,
  **if and only if** the block is undoable. The condition can be read off the block: all inputs are
  of a supported kind, addition and removal agree on which outputs are filed under amount 0, and a
  Zyphora output filed under amount 0 carries a token id. `RoundTripFails` gives one concrete block
  for each way of failing. The converse is a counting argument over the tables.
- `PopOrThrow`: when only tokens are missing, the pop does not go wrong: on tables without holes it
  restores the store if every token is there, and throws otherwise.
- `Runs`, `Spending`, `Filing`, `Resolution`: runs of additions and pops of any blocks in write
  batches, where a throw gives the whole batch up. The block tables always hold exactly the surviving
  blocks. For the rest there are four exact theorems, each of the form "this holds all along a run
  **if and only if** no step of it is such a one":
  - the spent images are those of the stored transactions, each spent once, unless a block goes in
    that makes the store forget an image: a transaction with an unsupported input names one that is
    spent by then;
  - the transaction tables list exactly the surviving transactions, unless a block with an
    unsupported input is popped;
  - the store is the one that the surviving blocks alone would have built, unless a block that is not
    undoable is popped; and wherever it is, every index list resolves, every row belongs to the
    transaction whose list names it, the height indexes are exact and no table has holes;
  - batches are closed once, in order, by the guard that has them (see below).

  Supported inputs and agreeing amounts, which can be told before a run, rule all those steps out;
  the corollaries say so. `RunsFail` gives runs that come to such a step.
- `RctCount`: for every accepted chain of any blocks, and so over every run without wrong pops, the
  running RingCT count differs from the size of the amount-0 bucket by an amount that is a function of
  the chain, and by nothing on regular blocks of supported inputs.
- `Acceptance`, `Inputs`, `BlockAcceptance`: exactly when a transaction and a block of any inputs are
  accepted, in terms of what the store has seen before; for blocks of supported inputs all at once, on
  the store of any accepted chain. Every refusal has the cause that its error names. Which inputs spend
  an image, what an aborted transaction leaves, and which mask each native output gets.
- `StoredRows`: what the row of an output holds, field by field; on the store of any accepted chain
  every surviving output has its row, and every row is that of a surviving output.

**Difficulty window** (`Difficulty`): the cached path refines a full rebuild, also where the fork
shortens the window. Over every life of a chain all queries on two or more blocks are answered right
if and only if none is misled, that is, made on the second block after a query on the first alone
that left short vectors of a longer chain in place; a life that comes to this is given. A query here
is one that computes: the caller answers a repeated one from the difficulty it kept and leaves the
vectors alone (src/cryptonote_core/blockchain.cpp:1085-1094).

**Checkpoints** (`Checkpoints`): finality grows with the height. It grows with new checkpoints except
in one case, caused by the range query never starting below the lowest checkpoint; the exact
condition and an instance are proved. From the lowest checkpoint on, the final one is the highest that
is hard-coded or confirmed by a later master-node checkpoint.

**Quorum mesh** (`Mesh`, `MeshCost`, `MeshBuilder`): the greedy builder over an adjacency matrix, for any number
of nodes. It ends for every target up to n - 1 after at most n(n - 1)/2 rounds, makes the first
cheapest link in each, by degrees and then by the number of pairs left with the fewest paths, and its
result survives any target - 1 failures. No mesh gets beyond n - 1
paths, so for larger targets the loop would not end.

**Depth tool** (`Offsets`, `RingGraph`, `DepthProof`, `DepthSearch`): the level-by-level search reports
the length of the shortest chain of ring references to a coinbase; it ends exactly when some chain
leads to a coinbase or to a transaction that cannot be followed, and what that means is stated in terms
of the chain. A reference is a ring member whose index is the sum of the offsets up to it modulo 2^64;
the conversions between relative and absolute offsets undo each other.

**Batch guard** (`Batch`, `LockedTxn`): any number of movable guards over the one write batch. A batch
is active if and only if exactly one guard owns it, and each batch is closed once by the guard that
started it or one it was moved to, as long as no owner's commit breaks and no owner's last abort
throws; these two are proved to be the only exceptions. Over every run the batches are closed in order
by the guards that have them if and only if no guard closes one that it does not have, and in nested
scopes with moves none does, even after commits that broke. Every batch of every run that ends
otherwise than by a commit that goes through leaves the data from its start, one that ends so leaves
what was written last, and only the owner of the moment can end it.

All inductions are written out: lemmas to which Dafny would add an induction hypothesis of its own
switch that off with `{:induction false}`.

Where code and comments disagree the model follows the code. Two places: a comment calls the first
entry of the checkpoint range the closest one at or below the queried height, but below the lowest
checkpoint it lies above; and the addition of a transaction takes any generation input as the
mark of a miner transaction, while the removal asks for it to be the only input.

## Model

| member | source | states |
|---|---|---|
| UndoExact.PopUndoesAddExactly | src/blockchain_db/blockchain_db.cpp:206-296 | for every store and every block it accepts: popping gives back every table, the block, and its transactions newest first, if and only if the block is undoable |
| Undo.BlockUndone | src/blockchain_db/blockchain_db.cpp:206-276 | for undoable blocks the pop restores the whole store and returns block and transactions in reverse order |
| Rounds.ReversedIs | src/blockchain_db/blockchain_db.cpp:266-274 | the list that a pop yields has the last transaction first |
| Undo.TxsUndone | src/blockchain_db/blockchain_db.cpp:235-275 | popping the transactions of a block from the last to the first undoes adding them in order |
| Undo.TransactionUndone | src/blockchain_db/blockchain_db.cpp:78-296 | removing a transaction right after adding it restores spent images, transaction tables and output tables |
| Undo.AddTxBodyUndone | src/blockchain_db/lmdb/db_lmdb.cpp:971-1134 | the data removal undoes the data addition whatever the spent set is, as the images come off first |
| Undo.OutputsUndone | src/blockchain_db/lmdb/db_lmdb.cpp:1136-1279 | taking the outputs off from the last to the first undoes filing them in order |
| Undo.AddOutputUndone | src/blockchain_db/lmdb/db_lmdb.cpp:1136-1337 | removing the index that a filed output got restores bucket, global row and height entry |
| Undo.BlockRowUndone | src/blockchain_db/lmdb/db_lmdb.cpp:857-969 | removing the top block undoes adding its row and its entry in the height index |
| Undo.InputsSpend | src/blockchain_db/blockchain_db.cpp:109-123 | inputs that go through add exactly their images, all of them new and different |
| Undo.AddTxBodyShape | src/blockchain_db/blockchain_db.cpp:142-203 | an addition appends one transaction row, one hash entry and one index list, all under the same id |
| UndoExact.PopNeedsSupported | src/blockchain_db/blockchain_db.cpp:124-140 | if the pop brings back the number of transaction rows, no input was unsupported |
| UndoExact.PopNeedsUndoable | src/blockchain_db/lmdb/db_lmdb.cpp:1258-1337 | if the pop brings back the weight of the output tables, the block was undoable |
| UndoExact.WeightsAgree | src/blockchain_db/lmdb/db_lmdb.cpp:1258-1279 | what removal takes off weighs no more than what addition put on, and the same exactly when amounts agree and tokens are present |
| UndoExact.AddedIffSupported | src/blockchain_db/blockchain_db.cpp:109-140 | a transaction that does not throw is filed if and only if all its inputs are supported |
| UndoExact.PopFindsLast | src/blockchain_db/blockchain_db.cpp:278-296 | a removal finds the transaction filed last and leaves the transaction tables from before it |
| RoundTripFails.TwoGensNotUndone | src/blockchain_db/lmdb/db_lmdb.cpp:1258-1279 | a block whose miner transaction has two generation inputs and a non-zero output is accepted and not undone |
| RoundTripFails.NoTokenNotUndone | src/blockchain_db/lmdb/db_lmdb.cpp:1281-1337 | a block with a Zyphora output of amount 0 without token id is accepted and not undone |
| RoundTripFails.ScriptInputNotUndone | src/blockchain_db/blockchain_db.cpp:124-140 | a block whose miner transaction has an unsupported input is accepted and not undone |
| PopOrThrow.PopRestoresOrThrows | src/blockchain_db/blockchain_db.cpp:206-296 | a block of supported inputs and agreeing amounts on tables without holes: its pop restores the store if every Zyphora output under amount 0 has a token, and throws otherwise |
| PopOrThrow.NoTokenThrows | src/blockchain_db/lmdb/db_lmdb.cpp:1281-1337 | the removal of a Zyphora output without token finds no height entry and throws before it changes anything |
| Resolution.RunBuiltExactly | src/blockchain_db/blockchain_db.cpp:206-296 | over every run of any blocks: the store is the one the surviving blocks alone would have built, all along the run, if and only if no pop of a block that is not undoable goes through |
| Resolution.PopBuiltExactly | src/blockchain_db/blockchain_db.cpp:260-296 | on the store of any accepted chain a pop that goes through leads to the store of the blocks below if and only if the popped block is undoable |
| Resolution.BuiltHolds | src/blockchain_db/blockchain_db.cpp:142-203 | wherever the store is that of its chain: tables list exactly the filed transactions, index lists resolve to their own outputs, every row has its owner, height indexes list exactly the outputs under amount 0 by kind, nothing has holes |
| Resolution.AgreeingPopsWell | src/blockchain_db/blockchain_db.cpp:206-296 | blocks of supported inputs and agreeing amounts are never popped wrongly, in any run |
| Resolution.RunIsReplay | src/blockchain_db/blockchain_db.cpp:206-276 | so over every run of such blocks the store is the one the surviving blocks would have built |
| Resolution.PopTakesLast | src/blockchain_db/blockchain_db.cpp:260-276 | on the store of any accepted chain a pop of a block of supported inputs and agreeing amounts takes it off, or throws exactly when there is none or a token of it is missing |
| Resolution.RunHolds | src/blockchain_db/blockchain_db.cpp:142-296 | over every run of blocks of supported inputs and agreeing amounts all of that holds, and each image is spent once |
| Runs.RunBlocks | src/blockchain_db/lmdb/db_lmdb.cpp:857-969 | over every run of any blocks the block table lists exactly the surviving blocks with their metadata, the height index is its inverse, and each block names the one below as parent |
| Runs.BatchEnds | src/cryptonote_core/blockchain.cpp:5588-5604 | a batch of additions and pops: an operation that goes through adds to it and stores nothing; a commit stores what it has come to; an abort or an operation that throws leaves what was stored before the batch, whatever was done in it |
| Runs.RunKeeps | src/cryptonote_core/blockchain.cpp:5134-5150 | what every operation that goes through keeps, holds of the running batch and of the stored data after every run, with batches that a throw gave up |
| Runs.RunExactly | src/cryptonote_core/blockchain.cpp:5134-5150 | if an operation keeps a property exactly when it is not a bad one, the property holds all along a run if and only if no step of it is bad, and then of what is stored too |
| Spending.RunPaysExactly | src/blockchain_db/blockchain_db.cpp:109-140 | over every run of any blocks: the spent images are those of the stored transactions, each occurring once, all along the run, if and only if no block goes in that makes the store forget an image |
| Spending.BlockPaysExactly | src/blockchain_db/blockchain_db.cpp:109-140 | any block that goes in keeps the account right if and only if it does not forget, which can be read off the block and the spent set before |
| Spending.AddPaysExactly | src/blockchain_db/blockchain_db.cpp:109-140 | any addition keeps the account right if and only if it is not the case that an input is unsupported and an image of it is spent; once wrong, no addition rights it |
| Spending.PopPays | src/blockchain_db/blockchain_db.cpp:278-296 | any removal that goes through keeps the account right, whichever row it finds |
| Filing.RunListsExactly | src/blockchain_db/blockchain_db.cpp:78-296 | over every run of any blocks: the transaction table lists exactly the surviving filed transactions and the hash index is its inverse, all along the run, if and only if no block with an unsupported input is popped |
| Filing.RunSpends | src/blockchain_db/blockchain_db.cpp:109-140 | over every run without those two kinds of step no image occurs twice among the surviving transactions, and the spent set is exactly their images |
| Filing.BlockShrinksExactly | src/blockchain_db/blockchain_db.cpp:260-296 | a pop of any block that goes through leaves the tables listing the transactions before it if and only if all its inputs are supported |
| Filing.TablesShrink | src/blockchain_db/blockchain_db.cpp:278-296 | a removal that goes through takes the last filed transaction off, whatever happened to the output tables |
| RunsFail.ImageSpentTwice | src/blockchain_db/blockchain_db.cpp:124-140 | a run from the empty store in which an unsupported input makes the store forget an image, so that two stored transactions spend it |
| RunsFail.WrongTransactionPopped | src/blockchain_db/blockchain_db.cpp:278-296 | a run from the empty store in which the pop of a block whose transaction was never filed takes off the transaction of the block below; it needs two transactions of one hash |
| RunsFail.WrongRowPopped | src/blockchain_db/lmdb/db_lmdb.cpp:1258-1279 | a run from the empty store in which the pop of a block with two generation inputs goes through and takes off the row of the block below |
| Resolution.HoldsGrows | src/blockchain_db/blockchain_db.cpp:78-204 | one more transaction, filed or aborted, keeps the tables exact |
| Filing.RunSpendsOnce | src/blockchain_db/blockchain_db.cpp:109-123 | over every run of blocks with supported inputs: both lists are exact and no image is spent twice |
| Resolution.RowsNotShared | src/blockchain_db/blockchain_db.cpp:142-203 | two outputs filed under the same amount never have the same index |
| OutputIndex.AddOutputsFiles | src/blockchain_db/blockchain_db.cpp:155-203 | filing the outputs of a transaction only appends, each index leads to its output, and every new row is one of them |
| OutputIndex.AddOutputShape | src/blockchain_db/lmdb/db_lmdb.cpp:1136-1233 | one output appends one row to the bucket of its amount and one to the global table and leaves no hole |
| OutputIndex.AddOutputsIndexed | src/blockchain_db/lmdb/db_lmdb.cpp:1136-1233 | where tokens are there, the two height indexes stay an exact list of the rows of amount 0, told apart by token |
| OutputIndex.AddOutputsHeights | src/blockchain_db/lmdb/db_lmdb.cpp:1136-1233 | the height indexes gain exactly the entries of the new outputs under amount 0, told apart by kind |
| RctCount.CountIsBucket | src/blockchain_db/blockchain_db.cpp:228-252 | for every accepted chain of any blocks the running count is the size of the amount-0 bucket plus the excess of its blocks |
| RctCount.RunCountsExcess | src/blockchain_db/blockchain_db.cpp:173-252 | over every run of any blocks in which no pop goes wrong the running count is the size of the bucket plus the excess of the surviving blocks |
| RctCount.RunCountsRct | src/blockchain_db/blockchain_db.cpp:173-252 | if the surviving blocks are regular and of supported inputs, the running count is the size of the amount-0 bucket |
| RctCount.AgreeingCountsRct | src/blockchain_db/blockchain_db.cpp:173-252 | over every run of regular blocks of supported inputs and agreeing amounts it is |
| RctCount.BlockZeroRows | src/blockchain_db/lmdb/db_lmdb.cpp:903-920 | any block that any store accepts moves the count by what it adds to the bucket plus its excess |
| Acceptance.AcceptedExactly | src/blockchain_db/blockchain_db.cpp:109-203 | a transaction of supported inputs is accepted if and only if its images are fresh and different, its hash is new and its outputs are acceptable |
| Acceptance.InputsAccepted | src/blockchain_db/blockchain_db.cpp:109-123 | supported inputs go through if and only if their images are fresh and pairwise different |
| Acceptance.OutputsAcceptedExactly | src/blockchain_db/blockchain_db.cpp:155-198 | outputs are filed if and only if each has a storable target, an unlock time and, if native and RingCT, a mask of its rank |
| Acceptance.AbortDropsImages | src/blockchain_db/blockchain_db.cpp:124-140 | an unsupported input at any position: all images of the transaction leave the spent set, nothing else changes, and nothing changes at all if and only if none was spent |
| Acceptance.MasksByNativeRank | src/blockchain_db/blockchain_db.cpp:146-198 | any mix of native and Zyphora outputs: the range check fails if and only if native outputs outnumber the masks; otherwise each is stored with the mask of its rank |
| Acceptance.CommitmentsAreMasks | src/blockchain_db/blockchain_db.cpp:146-198 | the commitments of the native outputs in order are the first masks in order |
| Acceptance.OnlyRangeFails | src/blockchain_db/blockchain_db.cpp:187-190 | in tables without holes well-formed RingCT outputs can fail for missing masks only |
| Inputs.FiledExactly | src/blockchain_db/blockchain_db.cpp:109-140 | a transaction that does not throw is filed if and only if no input is a script input; filed, it spends exactly the images of its native and Zyphora inputs, all unspent before; otherwise exactly those are unspent after it and nothing else changes |
| Inputs.RemovedExactly | src/blockchain_db/blockchain_db.cpp:278-296 | a removal unspends exactly the images of the native and Zyphora inputs of the stored transaction |
| Inputs.ImagesFitExactly | src/blockchain_db/blockchain_db.cpp:109-140 | inputs of any kinds go through if and only if up to the first script input no image is spent and no two inputs have the same |
| Inputs.AnyAcceptedExactly | src/blockchain_db/blockchain_db.cpp:78-204 | any transaction goes in if and only if its images fit and, if it has no script input, its hash is new and its outputs are acceptable; spent images and known hashes after it are given |
| Inputs.AcceptedIsFaultless | src/blockchain_db/blockchain_db.cpp:157-194 | an output is acceptable if and only if it has an unlock time, is no script output, has a mask if it is a native RingCT output that was not mined, and is not zero if it is a native one from before RingCT |
| Inputs.RefusalJustified | src/blockchain_db/blockchain_db.cpp:78-204 | an error of an addition names its cause: a clash of images, a known hash, or an output with that fault |
| BlockAcceptance.BlockAcceptedExactly | src/blockchain_db/blockchain_db.cpp:206-258 | any block goes in if and only if the sizes agree, each transaction fits what the store has seen by then, the id is new and the parent is the top block; the value is the number of blocks before, and the index and height of the new row |
| BlockAcceptance.TxsAcceptedExactly | src/blockchain_db/blockchain_db.cpp:235-247 | the loop over any transactions goes through if and only if each fits what those before it left |
| BlockAcceptance.SupportedBlockAccepted | src/blockchain_db/blockchain_db.cpp:206-258 | on the store of any accepted chain a block of supported inputs goes in if and only if it has a hash for each transaction, no two inputs spend the same image and none a spent one, no two hashes are equal and none is filed, each output is acceptable, the id is new and the parent is the top block; it goes in at the height of the chain |
| BlockAcceptance.BlockRefusalJustified | src/blockchain_db/blockchain_db.cpp:206-258 | an error of a block names its cause: unequal sizes, a known id, an unknown parent, a parent that is not the top, or a transaction that does not fit |
| StoredRows.BuiltStores | src/blockchain_db/lmdb/db_lmdb.cpp:1185-1215 | on the store of any accepted chain every surviving output is found under its index, with its key or stealth address, its own unlock time from version 3 on and that of the transaction before, and the commitment and token that belong to it; every row there is holds a surviving output |
| StoredRows.AddOutputHolds | src/blockchain_db/lmdb/db_lmdb.cpp:1185-1215 | one stored output, field by field: key or stealth address, unlock time, height, a Zyphora output's own commitment and token, a native one's null token and a commitment exactly under amount 0 |
| OutputIndex.RankIsCount | src/blockchain_db/blockchain_db.cpp:146-198 | the running counter of native outputs is the number of native outputs before |
| BlockchainDB.BlockchainDB.constructor | src/blockchain_db/lmdb/db_lmdb.cpp:1744-1806 | a new store is empty |
| BlockchainDB.BlockchainDB.AddBlock | src/blockchain_db/blockchain_db.cpp:206-258 | tables, error and returned height are those of the specification, also after a throw |
| BlockchainDB.BlockchainDB.PopBlock | src/blockchain_db/blockchain_db.cpp:260-276 | tables, error, block and transactions are those of the specification, also after a throw |
| BlockchainDB.BlockchainDB.PopTxs | src/blockchain_db/blockchain_db.cpp:266-274 | the reverse loop removes the transactions from the last to the first and lists them so |
| BlockchainDB.BlockchainDB.AddTxs | src/blockchain_db/blockchain_db.cpp:235-247 | the loop over the transactions adds them in order and counts their zero-amount outputs |
| BlockchainDB.BlockchainDB.AddTransaction | src/blockchain_db/blockchain_db.cpp:78-204 | input loop, abort path, data, output loop and index list together are the specified addition; only transaction tables change |
| BlockchainDB.BlockchainDB.RemoveTransaction | src/blockchain_db/blockchain_db.cpp:278-296 | images and data of a stored transaction come off as specified; a missing one throws |
| BlockchainDB.BlockchainDB.AddInputs | src/blockchain_db/blockchain_db.cpp:109-140 | spends images up to the first throw or unsupported input, and reports a generation input |
| BlockchainDB.BlockchainDB.RemoveImages | src/blockchain_db/blockchain_db.cpp:127-137 | the loop takes exactly the images of these inputs out of the spent set |
| BlockchainDB.BlockchainDB.AddOutputs | src/blockchain_db/blockchain_db.cpp:142-198 | the loop with its native counter files every output as specified and lists the indices |
| BlockchainDB.BlockchainDB.AddOneOutput | src/blockchain_db/blockchain_db.cpp:157-194 | one round chooses unlock time, amount and commitment as specified |
| BlockchainDB.BlockchainDB.CountZeroAmounts | src/blockchain_db/blockchain_db.cpp:240-244 | counts the outputs of amount 0 |
| BlockchainDB.BlockchainDB.AddSpentKey | src/blockchain_db/lmdb/db_lmdb.cpp:1393-1408 | refuses an image that is present, adds it otherwise |
| BlockchainDB.BlockchainDB.RemoveSpentKey | src/blockchain_db/lmdb/db_lmdb.cpp:1410-1427 | removes the image, present or not |
| BlockchainDB.BlockchainDB.AddTransactionData | src/blockchain_db/lmdb/db_lmdb.cpp:971-1056 | refuses a known hash; files the transaction under the next id |
| BlockchainDB.BlockchainDB.RemoveTransactionData | src/blockchain_db/lmdb/db_lmdb.cpp:1060-1134 | removes row, outputs, index list and hash entry, or reports what is missing and what was already gone |
| BlockchainDB.BlockchainDB.AddOutput | src/blockchain_db/lmdb/db_lmdb.cpp:1136-1233 | appends to global table, bucket and height index in that order, with the tables left by a throw in between |
| BlockchainDB.BlockchainDB.AddTxAmountOutputIndices | src/blockchain_db/lmdb/db_lmdb.cpp:1235-1256 | appends the index list of a transaction |
| BlockchainDB.BlockchainDB.RemoveTxOutputs | src/blockchain_db/lmdb/db_lmdb.cpp:1258-1279 | looks up the index list and takes the outputs off |
| BlockchainDB.BlockchainDB.RemoveOutputs | src/blockchain_db/lmdb/db_lmdb.cpp:1268-1278 | the loop from the last output down, with the amount the removal path assumes |
| BlockchainDB.BlockchainDB.RemoveOutput | src/blockchain_db/lmdb/db_lmdb.cpp:1281-1337 | removes height entry, global row and bucket row, choosing the height index by token |
| BlockchainDB.BlockchainDB.GetTx | src/blockchain_db/lmdb/db_lmdb.cpp:3230-3255 | finds a transaction through the hash index |
| BlockchainDB.BlockchainDB.AddBlockRow | src/blockchain_db/lmdb/db_lmdb.cpp:857-932 | refuses a known block and a parent that is not the top; appends the row with the running count |
| BlockchainDB.BlockchainDB.RemoveBlock | src/blockchain_db/lmdb/db_lmdb.cpp:934-969 | removes the top row and its height entry |
| Difficulty.FillTimestampsAndDifficulties | src/blockchain_db/blockchain_db.cpp:457-502 | throws exactly when a block is missing; a rebuild yields the window, the cached path the extended vectors; a throw leaves what was read, or the old vectors |
| Difficulty.Rebuild | src/blockchain_db/blockchain_db.cpp:472-490 | clears and reads from the start of the window to below the top block |
| Difficulty.AddTimestampAndDifficulty | src/cryptonote_basic/difficulty.cpp:75-93 | both vectors keep their newest entries up to the block count of the height |
| Difficulty.ReadBlocks | src/blockchain_db/blockchain_db.cpp:482-490 | reads the values at the given heights, or all there are and throws |
| Difficulty.WindowIs | src/cryptonote_config.h:325-343 | the window of H blocks holds the newest min(H - 1, 61) values below the fork height and min(H - 1, 60) from it on, in order |
| Difficulty.CachedIsWindow | src/blockchain_db/blockchain_db.cpp:457-502 | from the window at H - 1 the cached path yields the window at H, also at the fork |
| Difficulty.RebuiltIsWindow | src/blockchain_db/blockchain_db.cpp:478-500 | what a rebuild reads, and the top block, make up exactly the window |
| Difficulty.SoundExactly | src/cryptonote_core/blockchain.cpp:1097-1108 | every event keeps the cache sound if and only if it is not a misled query |
| Difficulty.QueryExactly | src/cryptonote_core/blockchain.cpp:1097-1108 | on a sound cache a query on two or more blocks yields both windows if and only if it is not misled: two blocks, cached height 1, vectors left that are short enough to be kept |
| Difficulty.LifeExactly | src/cryptonote_core/blockchain.cpp:1097-1108 | over every life: all queries on two or more blocks are answered right if and only if none is misled |
| Difficulty.LeftoverReached | src/cryptonote_core/blockchain.cpp:1097-1108 | a life of two blocks, query, pop, query, block, query ends with a wrong answer |
| Checkpoints.GetCheckpointsRange | src/blockchain_db/lmdb/db_lmdb.cpp:4180-4265 | the descending query for two yields the topmost checkpoints at or below the height, or the lowest one |
| Checkpoints.GetImmutableCheckpoint | src/blockchain_db/blockchain_db.cpp:388-421 | picks a hard-coded top checkpoint or the one before a master-node one |
| Checkpoints.FinalIsConfirmed | src/blockchain_db/blockchain_db.cpp:388-421 | the final checkpoint is hard-coded or a later master-node checkpoint lies at or below the query |
| Checkpoints.FinalIsHighestConfirmed | src/blockchain_db/blockchain_db.cpp:388-421 | from the lowest checkpoint on the final one is the highest that is hard-coded or confirmed, and missing only if there is none; below, it is the lowest one if that is hard-coded |
| Checkpoints.FinalBelowQueryExactly | src/blockchain_db/lmdb/db_lmdb.cpp:4180-4215 | the final checkpoint lies at or below the query if and only if the lowest checkpoint does |
| Checkpoints.FinalGrowsWithHeight | src/blockchain_db/blockchain_db.cpp:388-421 | a higher query never yields a lower final height |
| Checkpoints.FinalGrowsWithCheckpointsExactly | src/blockchain_db/blockchain_db.cpp:388-421 | a checkpoint at a new height lowers the final height in exactly one case |
| Checkpoints.FinalityLost | src/blockchain_db/lmdb/db_lmdb.cpp:4180-4215 | an instance of that case, whose first answer lies above the query |
| Mesh.PathsAreLinkPlusCommon | utils/generate-quorum-matrix.py:38-52 | the count is the direct link plus the common neighbours, and symmetric |
| Mesh.PathsGrow | utils/generate-quorum-matrix.py:38-52 | no count falls when links are added |
| Mesh.MinGrows | utils/generate-quorum-matrix.py:92-99 | the smallest count never falls |
| Mesh.MinBounded | utils/generate-quorum-matrix.py:126-158 | no mesh has a smallest count beyond n - 1, so no larger target is ever reached |
| Mesh.CandidateExists | utils/generate-quorum-matrix.py:126-141 | below n - 1 there are two unlinked nodes |
| Mesh.LinkAdded | utils/generate-quorum-matrix.py:144-158 | a new link keeps the matrix one-way with empty diagonal and uses up one of the unlinked pairs |
| Mesh.AllPairsFree | utils/generate-quorum-matrix.py:120 | the empty matrix has n(n - 1)/2 unlinked pairs |
| Mesh.SurvivesFailures | utils/generate-quorum-matrix.py:38-52 | two nodes with t paths stay within two hops after any t - 1 failures |
| Mesh.SurvivesExactly | utils/generate-quorum-matrix.py:38-52 | for unlinked nodes the count is the exact number of failures to cut them |
| MeshCost.PoorPairsCount | utils/generate-quorum-matrix.py:102-108 | counting row by row yields the number of pairs with at most m paths |
| MeshCost.PoorSetEmptyExactly | utils/generate-quorum-matrix.py:102-108 | there is no pair with at most m paths if and only if every two nodes have m + 1; at the smallest count there is one |
| MeshCost.PoorSetShrinks | utils/generate-quorum-matrix.py:102-108 | more links leave no more such pairs |
| MeshCost.FirstBestExactly | utils/generate-quorum-matrix.py:127-141 | the first cheapest link is the least one by degrees, then by pairs left with at most m paths, then by row and column |
| MeshBuilder.MinConnectionsReachable | utils/generate-quorum-matrix.py:28-29 | the target of the script is reachable exactly from five nodes on |
| MeshBuilder.BuildQuorum | utils/generate-quorum-matrix.py:118-158 | with the script's targets: four paths between any two of up to ten nodes and two beyond, so that any three, or any one, may fail and the others stay within two hops |
| MeshBuilder.CandidateBeatsSeed | utils/generate-quorum-matrix.py:127-139 | the degree score of a candidate is at most 2n - 2, below the seed |
| MeshBuilder.Builder.constructor | utils/generate-quorum-matrix.py:119-120 | starts with a zero matrix |
| MeshBuilder.Builder.NeighboursOf | utils/generate-quorum-matrix.py:42-48 | lists exactly the neighbours, each once |
| MeshBuilder.Builder.CountPathsWithinTwo | utils/generate-quorum-matrix.py:38-52 | counts exactly the paths of at most two hops |
| MeshBuilder.Builder.CountAmong | utils/generate-quorum-matrix.py:49-52 | counts the neighbours that are the other node or linked to it |
| MeshBuilder.Builder.MinWithinTwo | utils/generate-quorum-matrix.py:92-99 | is the smallest count over all pairs, and missing for fewer than two nodes |
| MeshBuilder.Builder.CountNotWithinTwo | utils/generate-quorum-matrix.py:102-108 | the count is the size of the set of pairs at or below the given number |
| MeshBuilder.Builder.OutgoingConns | utils/generate-quorum-matrix.py:130 | the row sum is the number of outgoing links |
| MeshBuilder.Builder.IncomingConns | utils/generate-quorum-matrix.py:132 | the column sum is the number of incoming links |
| MeshBuilder.Builder.TryLink | utils/generate-quorum-matrix.py:135-141 | yields the cost of a trial link and takes the link back |
| MeshBuilder.Builder.FindBest | utils/generate-quorum-matrix.py:127-141 | finds the first cheapest of all unlinked ordered pairs, leaves the matrix as it was, and the seed position without candidates |
| MeshBuilder.Builder.AddBestConnection | utils/generate-quorum-matrix.py:127-144 | adds exactly that link |
| MeshBuilder.Builder.Round | utils/generate-quorum-matrix.py:126-158 | each round adds the first cheapest link between unlinked nodes, keeps the matrix simple and never lowers the smallest count |
| MeshBuilder.Builder.Grow | utils/generate-quorum-matrix.py:124-158 | the loop ends with every two nodes at or above the target, and each of its links was the first cheapest one while the smallest count was below the target |
| MeshBuilder.Build | utils/generate-quorum-matrix.py:118-158 | ends for every n and target up to n - 1, after at most n(n - 1)/2 rounds that each made the first cheapest link, with every two nodes at or above the target |
| MeshBuilder.MeshToleratesFailures | utils/generate-quorum-matrix.py:126-158 | in such a mesh any two surviving nodes stay within two hops after any target - 1 failures |
| DepthProof.FrontierIsDistance | src/blockchain_utilities/blockchain_depth.cpp:185-299 | frontier d holds exactly the transactions reached by d references |
| DepthProof.NoCoinbaseBefore | src/blockchain_utilities/blockchain_depth.cpp:203-210 | no transaction reached in fewer steps than a live frontier is a coinbase |
| DepthProof.ShortestChain | src/blockchain_utilities/blockchain_depth.cpp:178-303 | the depth of the frontier that holds a coinbase is the length of the shortest chain to one |
| DepthProof.EndsExactly | src/blockchain_utilities/blockchain_depth.cpp:185-299 | the loop ends if and only if some chain leads to a coinbase or to a transaction that cannot be followed |
| DepthProof.ScanFailsExactly | src/blockchain_utilities/blockchain_depth.cpp:191-292 | the scan of a transaction fails if and only if it is missing, or an input with no generation input up to it is of another kind or has a ring member without origin; the error is that of such an input |
| DepthProof.OriginJustified | src/blockchain_utilities/blockchain_depth.cpp:217-284 | in any chain the lookup yields a creator of the key, and every failure has the cause that it names |
| DepthProof.EndsWithinHeight | src/blockchain_utilities/blockchain_depth.cpp:185-299 | with non-empty rings and members in lower blocks it ends no deeper than the height of the start |
| DepthProof.NoInputsNeverEnds | src/blockchain_utilities/blockchain_depth.cpp:185-299 | from a transaction without inputs the loop never ends |
| DepthProof.OriginIsCreator | src/blockchain_utilities/blockchain_depth.cpp:217-284 | with plain outputs and keys unique in the block, the lookup yields the creating transaction and fails exactly when there is none |
| DepthSearch.FindDepth | src/blockchain_utilities/blockchain_depth.cpp:180-302 | success reports the shortest chain to a coinbase; failure means that a transaction which cannot be followed is no farther than any coinbase |
| DepthSearch.FindDepths | src/blockchain_utilities/blockchain_depth.cpp:177-303 | one shortest depth for each start, in order; a failure is that of one of the starts |
| DepthSearch.ScanFrontier | src/blockchain_utilities/blockchain_depth.cpp:189-293 | a level ends at its first coinbase or error, or lists all references |
| DepthSearch.ScanTransaction | src/blockchain_utilities/blockchain_depth.cpp:191-292 | a transaction ends at its first generation input or bad input, or lists its references |
| DepthSearch.FindRing | src/blockchain_utilities/blockchain_depth.cpp:215-285 | the creators of all members of a ring, or the first failure |
| DepthSearch.FindOrigin | src/blockchain_utilities/blockchain_depth.cpp:217-284 | searches the miner transaction, then the others, by output key |
| Offsets.ToAbsolute | src/cryptonote_basic/cryptonote_format_utils.cpp:1845-1851 | entry k is the sum of the offsets up to k modulo 2^64 |
| Offsets.ToRelative | src/cryptonote_basic/cryptonote_format_utils.cpp:1853-1867 | refuses exactly the empty and the unordered list; otherwise the differences, which add up to the last index |
| Offsets.AbsoluteIsSum | src/cryptonote_basic/cryptonote_format_utils.cpp:1845-1851 | an absolute offset is the sum of the relative ones up to it modulo 2^64 |
| Offsets.RelativeOfAbsolute | src/cryptonote_basic/cryptonote_format_utils.cpp:1845-1867 | relative offsets come back from the absolute ones, wrapped or not |
| Offsets.AbsoluteOfRelative | src/cryptonote_basic/cryptonote_format_utils.cpp:1845-1867 | and absolute ones from the relative ones |
| Offsets.AscendsExactly | src/cryptonote_basic/cryptonote_format_utils.cpp:1845-1860 | the absolute offsets are in order, as the conversion back asks, if and only if the sum stays below 2^64 |
| Batch.OrderlyExactly | src/blockchain_db/locked_txn.h:41-51 | from a state with one owner per active batch, a step keeps that if and only if it is not an owner's breaking commit or throwing last abort |
| Batch.RunsOrderlyExactly | src/blockchain_db/locked_txn.h:41-51 | over every run: active exactly with one owner and each batch closed once, in order, by the guard that has it, all along the run, if and only if no step of it is one of those |
| Batch.GuardsChange | src/blockchain_db/locked_txn.h:41-51 | a guard that opens owns exactly if no batch was active; a move hands ownership on and nothing else; a guard that goes away is gone, whatever its abort does |
| Batch.OthersHaveNoEffect | src/blockchain_db/locked_txn.h:49-51 | commit, abort and destruction of a guard without the batch leave the database alone |
| Batch.OwnerAloneDecides | src/blockchain_db/locked_txn.h:41-51 | whatever other guards and writers do, and through however many guards the batch is moved, it stays open with the data from its start stored until the owner of the moment ends it |
| Batch.CommittedFixed | src/blockchain_db/locked_txn.h:41-51 | only an owner's successful commit and writes outside a batch ever change the committed data |
| Batch.BatchRollsBack | src/blockchain_db/locked_txn.h:41-51 | every batch of every run: ended otherwise than by a commit that goes through, it leaves the data from its start; ended so, it leaves what was written last, or those data if nothing was |
| Batch.WrittenAtOnce | src/blockchain_db/locked_txn.h:41-51 | without a batch a write is stored at once and changes nothing else |
| Batch.OwnerCloses | src/blockchain_db/locked_txn.h:49-51 | the owner's abort, destruction and breaking commit leave the stored data, its commit stores the written ones, and all of them end the batch |
| Batch.FailedCommitLosesWork | src/blockchain_db/locked_txn.h:49 | an instance: after a breaking commit the guard closes the batch of another one, whose work is lost |
| Batch.ClosedExactly | src/blockchain_db/locked_txn.h:49-51 | from any state in which batches were closed in order, a step keeps that if and only if it is not a closing by a guard that does not have the batch |
| Batch.RunsClosedExactly | src/blockchain_db/locked_txn.h:41-51 | over every run: each batch is closed once, in order, by the guard that has it, all along the run, if and only if there is no such closing |
| Batch.NestedRuns | src/blockchain_db/locked_txn.h:41-51 | in nested scopes with moves there is none, also when commits break |
| Batch.NestedOwnerDecides | src/blockchain_db/locked_txn.h:41-51 | in nested scopes, also after commits that broke, only the owner of the moment ends a batch |
| Batch.NestedKept | src/blockchain_db/locked_txn.h:41-51 | one step of nested scopes, moves included, keeps that |
| LockedTxn.Database.BatchStart | src/blockchain_db/lmdb/db_lmdb.cpp:3750-3789 | starts a batch from the committed data unless one is active |
| LockedTxn.Database.BatchStop | src/blockchain_db/lmdb/db_lmdb.cpp:3824-3848 | stores the batch and ends it, ends it also when the commit itself throws, and changes nothing when it is refused before |
| LockedTxn.Database.BatchAbort | src/blockchain_db/lmdb/db_lmdb.cpp:3850-3869 | drops the batch |
| LockedTxn.LockedTxn.Open | src/blockchain_db/locked_txn.h:41-43 | a guard owns the batch exactly if it started it; none comes into being when the start throws |
| LockedTxn.LockedTxn.Move | src/blockchain_db/locked_txn.h:46 | ownership moves, the old guard loses it |
| LockedTxn.LockedTxn.Commit | src/blockchain_db/locked_txn.h:49 | an owner commits and gives up the batch, unless the commit throws |
| LockedTxn.LockedTxn.Abort | src/blockchain_db/locked_txn.h:50 | an owner aborts and gives up the batch, unless the abort throws |
| LockedTxn.LockedTxn.Destroy | src/blockchain_db/locked_txn.h:51 | a guard that goes away aborts what it owns |

## Left out

- Pruned and prunable data, blob parsing and hashing: transactions, blocks, hashes, keys and key images are opaque values; `hash` and `id` stand for what the hash functions yield.
- The output blacklist, the alternative-block, master-node and txpool tables: they do not take part in the modelled laws.
- Unsigned 64-bit wrap-around of heights, counts and difficulties: numbers are unbounded, except in ring offsets, which are 64-bit words.
- Reads that are undefined in the program: a missing per-output unlock time and a missing or short index list are modelled as errors.
- BlockchainDB.BlockchainDB.AddTransaction: does not write the output blacklist, which no pop undoes and no modelled operation reads.
- BlockchainDB.BlockchainDB.AddTransactionData: does not file the prunable data and their hash, which the modelled operations do not read.
- BlockchainDB.BlockchainDB.RemoveTransactionData: does not remove the prunable data and their hash, for the same reason.
- Runs.RunKeeps: a throw gives the batch up at once; operations between the throw and the abort of the batch, whose effects are dropped with it, are not run.
- UndoExact.PopUndoesAddExactly: asks that no amount keeps a key without rows, which a table with duplicate keys cannot have; Undo.BlockUndone proves that additions keep it so.
- Filing.RunSpendsOnce: asks for supported inputs, which can be told before the run; Spending.RunPaysExactly and Filing.RunListsExactly are exact.
- Resolution.RunIsReplay: asks for supported inputs and agreeing amounts, which can be told before the run; Resolution.RunBuiltExactly is exact.
- Resolution.RunHolds: asks for the same; Resolution.BuiltHolds does not.
- Acceptance.AcceptedExactly: asks for supported inputs, which Inputs.AnyAcceptedExactly does not; does not model that LMDB keeps the rows of one amount in a table of rows of equal size, so that it refuses a Zyphora row, which has full size, next to shorter native rows of the same non-zero amount, and the other way round.
- Acceptance.OutputsAcceptedExactly: does not model that either.
- Acceptance.OneOutputAccepted: does not model that either.
- Inputs.AnyAcceptedExactly: does not model that either.
- BlockAcceptance.BlockAcceptedExactly: does not model that either.
- BlockAcceptance.SupportedBlockAccepted: does not model that either; asks for supported inputs, which BlockAcceptance.BlockAcceptedExactly does not.
- Batch.NestedRuns: asks that while a batch is active the code does not commit, abort or move a guard whose own batch is gone; Batch.RunsClosedExactly is exact.
- Batch.NestedKept: asks for the same; Batch.ClosedExactly is exact.
- Checkpoints.GetCheckpointsRange: models the one call that finality makes, descending to height 0 for two checkpoints; the loop over the table is written out for two.
- MeshBuilder.Build: asks for a target up to n - 1, because for a larger one the loop does not end.
- MeshBuilder.BuildQuorum: asks for five nodes, because for fewer the script's target is larger than that.
- DepthSearch.FindDepth: asks that the search ends, because otherwise the loop does not; DepthProof.EndsExactly says when.
- DepthProof.OriginIsCreator: asks for stored transactions with plain outputs and unique keys, because the tool compares keys only.
- Batch operations by other threads appear as refused ones; the sizing of the map at batch start is left out.
- Bodies of nested loops appear as methods of their own (rows of the mesh search, the loops of a block).
- Printing and tracing of the mesh script, averages and medians of the depth tool, command lines.
- Proof-of-work and difficulty formulas, cryptography, consensus rules, networking, wallets and the RPC server.
