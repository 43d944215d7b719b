# Chain-state engine of a minimal blockchain, in Dafny

This project models the chain-state engine of the blockchain prototype (`src/blockchain.js`):

- the block store, a record collection of blocks looked up by `hash`;
- the latest-hash collection, meant to hold one pointer record and written by insert-or-update;
- the in-memory chain head `latestHash` and the mempool `tempTransactions`;
- the lifecycle operations: `init` writes the genesis block once, `get` opens an initialised
  chain, `mine` turns the mempool into a block linked to the head, `createTrxn` appends to the
  mempool, and the iterator walks backward along `prevBlockHash` links.

Files:

- `outcomes.dfy` (module `Outcomes`): `Option`, `Result` and `Outcome`, standing in for a value
  that may be `null` and for promises that resolve or reject.
- `ledger.dfy` (module `Ledger`): the records (`Block`, `PointerRecord`, `Transaction`,
  `Wallet`), the errors, and the pure specification functions of the store lookups.
  `Find` is `findOne({hash})`, `UpdateById` and `Upsert` are the pointer write, `LatestOf` is
  the pointer read, and `Walk` is the sequence of blocks that repeated iterator steps return.
  The module also holds `Linked`, the shape of a chain that genesis plus successive mining
  builds, and the lemmas about all of these.
- `blockchain.dfy` (module `Chain`): the class `Blockchain`, whose fields are the two
  collections (as sequences), the head and the mempool. Its methods update those fields in
  place. The module also has the class `BlockchainIterator` and the module-level methods
  `Init` and `Get`.

How the environment appears in the model:

- The persisted collections are a `Disk` value. `Init` and `Get` receive it in place of
  `connectDB`'s file load, and `Init` returns the disk it leaves behind.
- Every store call that can fail takes a flag saying whether the store reported success.
  Examples are `blockWriteOk` for the block insert, and `pointerReadOk` / `pointerWriteOk` for
  the `findOne` and the insert/update inside `saveLatestHash`.
- The clock reading taken when a block is created is a `timestamp` parameter.
- Block hashing is the abstract `digest` function over (parent link, timestamp, transactions),
  fixed when a `Blockchain` object is constructed.
- The genesis block has the empty parent link and one coinbase transaction. The coinbase
  transaction is a parameter, because the code that builds it is not part of this model.
- `Wallet.load` and `Transaction.create` are parameters of `CreateTrxn`: the wallet load's
  result, and a function from the loaded wallet to the build's result. Either may fail.

The assumption that hashes are distinct is stated outright as `Ledger.FreshDigest(blocks, h)`:
a newly computed digest differs from every hash and every parent link already stored.
`Mine` keeps `Consistent()` only under that hypothesis. The in-memory head and the stored
pointer then both name the head of a `Linked` chain. A successful `Init` leaves a `Settled`
disk exactly when the genesis digest is not the empty hash. `Get` opens a settled disk as a
consistent chain.

Three behaviours of `src/blockchain.js` the model keeps:

- `mine` is not serialised against concurrent calls.
- The iterator stops at any lookup miss, not only at the empty parent link.
- `init` stores the genesis block and the pointer but never sets an in-memory head. The
  chain object it creates is discarded.

## Model

| member | source | states |
|---|---|---|
| `Ledger.Find` | src/blockchain.js:66-76 | a lookup by hash returns a stored block carrying exactly that hash, and returns nothing exactly when no stored block has that hash |
| `Ledger.FindAt` | src/blockchain.js:66-76 | a block whose hash no earlier block shares is precisely the block a lookup of that hash returns |
| `Ledger.Walk` | src/blockchain.js:162-175 | repeated iterator steps return at most one block per step, only stored blocks, and the first one carries the starting hash |
| `Ledger.GenesisParentMisses` | src/blockchain.js:165-171 | in a linked chain the lookup of genesis' parent link finds no block, so the iterator returns `null` there |
| `Ledger.WalkLinked` | src/blockchain.js:162-171 | in a linked chain, walking from block k returns blocks k, k-1, ..., genesis, in that order, then misses however many more steps are allowed |
| `Ledger.WalkFromHead` | src/blockchain.js:162-171 | walking from the head of a chain built by genesis and mining yields every block newest-first with genesis last, and the following lookup of genesis' parent link misses, so the walk terminates |
| `Ledger.GenesisLinked` | src/blockchain.js:184-190 | a genesis block alone forms a linked chain exactly when its digest differs from the empty parent link |
| `Ledger.ExtendLinked` | src/blockchain.js:49-57 | appending a block whose parent is the current head and whose digest is fresh keeps the chain linked and makes that block the head |
| `Ledger.UpdateById` | src/blockchain.js:108-118 | an update by `_id` changes only the first record with that identifier, giving it the new head and keeping its `_id`; the number of records is unchanged |
| `Ledger.UpsertEffect` | src/blockchain.js:90-122 | the pointer write inserts one record into an empty collection, and otherwise rewrites only the first record by its `_id`; the head read back afterwards is the hash written |
| `Ledger.LatestOf` | src/blockchain.js:35-40 | the pointer read succeeds exactly when a record exists and then yields the first record's `latestHash`; with no record it fails with `PointerMissing`; `UpsertEffect` proves that reading after an upsert of `h` yields `h` |
| `Ledger.Upsert` | src/blockchain.js:97-119 | the insert-or-update: an empty collection gains exactly one record, with identifier `InsertedId`; otherwise the number of records is kept, the first record keeps its `_id` and all later records are untouched; the first record carries the new head. `UpsertEffect` and `UpsertKeepsSingle` are proved about it |
| `Ledger.UpsertKeepsSingle` | src/blockchain.js:90-122 | a pointer collection holding at most one record holds exactly one after the write, and it records the hash written |
| `Chain.Blockchain.constructor` | src/blockchain.js:11-18 | a new chain object holds the persisted collections, an empty head and an empty mempool |
| `Chain.Blockchain.Pending` | src/blockchain.js:50-52 | the block `mine` builds: its data is the current mempool, its parent is the current in-memory head, its timestamp the clock reading, and its hash the digest of those contents |
| `Chain.Blockchain.GetLatestHash` | src/blockchain.js:33-43 | a read failure rejects with the store error; otherwise the result is the first pointer record's head, and reading an empty collection fails |
| `Chain.Blockchain.GetIterator` | src/blockchain.js:45-47 | the new iterator belongs to this chain and starts at the in-memory head |
| `Chain.Blockchain.Mine` | src/blockchain.js:49-64 | on success the stored block is built from the old mempool and has the old head as parent; the pointer and head become its hash and the mempool empties. If storing the block fails, nothing changes. If the pointer write fails, the block stays stored but the pointer, head and mempool are unchanged. A pointer collection of at most one record stays so. Under a fresh digest, a consistent chain stays consistent |
| `Chain.Blockchain.Find` | src/blockchain.js:66-76 | never rejects: a found block is stored and carries the hash, a successful read that misses means no stored block has that hash, and a failed read resolves to no block |
| `Chain.Blockchain.SaveBlock` | src/blockchain.js:78-88 | on success exactly this block is appended to the block collection, duplicates not refused; on failure the collection is unchanged and the store error is reported |
| `Chain.Blockchain.SaveLatestHash` | src/blockchain.js:90-122 | on success the pointer collection is the upsert of the hash: one record when it was empty, else the same number of records with the first keeping its `_id`, and the head read back is the hash; on any failure it is unchanged |
| `Chain.Blockchain.IsEmpty` | src/blockchain.js:124-134 | true exactly when the block collection holds no block |
| `Chain.Blockchain.CreateTrxn` | src/blockchain.js:136-148 | on success exactly one transaction, the one built, is appended after the unchanged earlier entries; if the wallet load or the build fails, that error is returned and the mempool is unchanged |
| `Chain.BlockchainIterator.constructor` | src/blockchain.js:157-160 | the iterator holds the given chain and starting hash |
| `Chain.BlockchainIterator.Next` | src/blockchain.js:162-175 | a hit returns the block stored under the current hash and moves to its parent link; a miss returns no block and leaves the current hash unchanged; each step unfolds `Walk` by one |
| `Chain.Init` | src/blockchain.js:178-199 | a disk holding a block is refused with "Blockchain is already initialized" and left unchanged. On an empty disk, success stores exactly the genesis block and points the pointer at it; a store failure rejects, keeping whatever was written before it. On success the resulting disk is settled exactly when the genesis digest is not empty |
| `Chain.Get` | src/blockchain.js:201-214 | an empty block collection is refused with "Blockchain is not initialized"; otherwise the head is loaded from the pointer record, with an empty mempool, or the read's failure is returned; a settled disk opens as a consistent chain |

## Left out

- `src/node.js`, the peer-to-peer sync protocol, is not part of this model. That covers
  topic subscription, wire JSON, settle delays and the connect event. The chain calls it makes
  (`findNext`, `getTransactions`, `saveTransaction`) do not exist in `src/blockchain.js`.
- The file loading in `connectDB` is replaced by the `Disk` parameter. Store failures are
  modelled only as "this call may fail", through flags.
- Block construction and hashing (`Block.create`, `setHash`, `createGenesisBlock`, `toJSON`)
  live in `src/Block.js`, which is not part of this model. The digest is an abstract function,
  and serialisation to JSON is the identity.
- `findBalance` is left out. It delegates to `Transaction.findUnusedTransactions`, whose UTXO
  engine in `src/transaction.js` is not part of this model.
- Transactions are opaque records carrying only an `id`. Wallets carry only an address.
- Concurrency and interleaving of asynchronous handlers are left out. Every operation is a
  sequential method.
- `Chain.Blockchain.IsEmpty`: a store read error is not modelled. The source ignores `err`
  there and would dereference an undefined result.
- `Chain.Blockchain.GetLatestHash`: with no pointer record, the source dereferences `null`
  inside the store callback rather than rejecting. The model returns the error
  `PointerMissing` instead.
- `Chain.Blockchain.SaveLatestHash`: the store draws a random `_id` for an inserted record.
  The model uses the fixed identifier `InsertedId`. The collection is empty at that point, so
  the identifier cannot clash.
- `Ledger.Find`: when several blocks share a hash, the store returns one of them without
  saying which. The model returns the first one stored. Under distinct hashes the two agree.
- `Ledger.LatestOf`: reading the pointer returns the first record of the collection. The
  store's own order among several records is not modelled.
