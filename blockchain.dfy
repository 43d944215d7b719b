/** The chain-state engine: the block store, the latest-hash pointer, the in-memory head and
    mempool, mining, the backward iterator, and the `init` / `get` entry points.

    Each call into the record store that can fail takes a flag saying whether the store
    reported success; the clock reading `Block.create` takes is a `timestamp` parameter. */
module Chain {
  import opened Outcomes
  import opened Ledger

  /** The persisted contents of the two collections, as loaded when a chain object connects. */
  datatype Disk = Disk(blocks: seq<Block>, pointers: seq<PointerRecord>)

  /** A disk that `init` and successive `mine` calls leave: a linked chain whose head is the
      hash the pointer records. */
  predicate Settled(d: Disk)
  {
    Linked(d.blocks) && LatestOf(d.pointers) == Success(Head(d.blocks))
  }

  class Blockchain {
    /** The block digest `setHash` computes. */
    const digest: Digest
    /** The block collection, in insertion order. */
    var blocks: seq<Block>
    /** The latest-hash collection, meant to hold a single record. */
    var pointers: seq<PointerRecord>
    /** The in-memory chain head. */
    var latestHash: Hash
    /** The mempool: transactions created since the last successful `mine`. */
    var tempTransactions: seq<Transaction>

    /** A fresh chain object over the persisted collections, with an empty head and mempool. */
    constructor (disk: Disk, digest: Digest)
      ensures this.digest == digest && Files() == disk
      ensures latestHash == EmptyHash && tempTransactions == []
    {
      this.digest := digest;
      blocks := disk.blocks;
      pointers := disk.pointers;
      latestHash := EmptyHash;
      tempTransactions := [];
    }

    function Files(): (d: Disk)
      reads this
    {
      Disk(blocks, pointers)
    }

    /** The in-memory head and the stored pointer both name the head of a linked chain. */
    predicate Consistent()
      reads this
    {
      Settled(Files()) && latestHash == Head(blocks)
    }

    /** The block `mine` would build now: the mempool as data, the in-memory head as parent. */
    function Pending(timestamp: int): (b: Block)
      reads this
      ensures b.prevBlockHash == latestHash && b.data == tempTransactions && b.timestamp == timestamp
      ensures b.hash == digest(latestHash, timestamp, tempTransactions)
    {
      Seal(digest, latestHash, timestamp, tempTransactions)
    }

    /** Reads the head recorded by the pointer collection. */
    method GetLatestHash(readOk: bool) returns (r: Result<Hash, Error>)
      ensures !readOk ==> r == Failure(StorageError)
      ensures readOk && pointers == [] ==> r == Failure(PointerMissing)
      ensures r.Success? <==> readOk && pointers != []
      ensures r.Success? ==> r.value == pointers[0].latestHash
    {
      if !readOk {
        return Failure(StorageError);
      }
      r := LatestOf(pointers);
    }

    /** An iterator that starts at the in-memory head. */
    method GetIterator() returns (it: BlockchainIterator)
      ensures fresh(it) && it.chain == this && it.currentHash == latestHash
    {
      it := new BlockchainIterator(this, latestHash);
    }

    /** Turns the mempool into a block linked to the in-memory head, stores it, then advances
        the pointer and the head and empties the mempool. A failure to store the block changes
        nothing; a failure to write the pointer leaves the stored block but nothing else. */
    method Mine(timestamp: int, blockWriteOk: bool, pointerReadOk: bool, pointerWriteOk: bool)
      returns (r: Result<Block, Error>)
      modifies this
      ensures r.Success? <==> blockWriteOk && pointerReadOk && pointerWriteOk
      ensures r.Success? ==> r.value == old(Pending(timestamp))
      ensures r.Success? ==> r.value.prevBlockHash == old(latestHash) && r.value.data == old(tempTransactions)
      ensures r.Failure? ==> r.error == StorageError
      ensures blocks == if blockWriteOk then old(blocks) + [old(Pending(timestamp))] else old(blocks)
      ensures pointers == if r.Success? then Upsert(old(pointers), r.value.hash) else old(pointers)
      ensures latestHash == if r.Success? then r.value.hash else old(latestHash)
      ensures tempTransactions == if r.Success? then [] else old(tempTransactions)
      ensures r.Success? ==> LatestOf(pointers) == Success(latestHash)
      ensures old(|pointers|) <= 1 ==> |pointers| <= 1
      ensures old(Consistent()) && r.Success? && FreshDigest(old(blocks), r.value.hash) ==> Consistent()
    {
      ghost var wasConsistent := Consistent();
      var block := Seal(digest, latestHash, timestamp, tempTransactions);
      var saved := SaveBlock(block, blockWriteOk);
      if saved.Fail? {
        return Failure(saved.error);
      }
      var pointed := SaveLatestHash(block.hash, pointerReadOk, pointerWriteOk);
      if pointed.Fail? {
        return Failure(pointed.error);
      }
      if wasConsistent && FreshDigest(old(blocks), block.hash) {
        ExtendLinked(old(blocks), block);
      }
      latestHash := block.hash;
      tempTransactions := [];
      r := Success(block);
    }

    /** Looks a block up by hash; a failed read resolves to no block, never to an error. */
    method Find(hash: Hash, readOk: bool) returns (r: Option<Block>)
      ensures r.Some? ==> readOk && r.value in blocks && r.value.hash == hash
      ensures readOk && r.None? ==> forall b :: b in blocks ==> b.hash != hash
      ensures readOk ==> r == Ledger.Find(blocks, hash)
    {
      if !readOk {
        return None;
      }
      r := Ledger.Find(blocks, hash);
    }

    /** Inserts a block into the block collection; a second block with the same hash is not refused. */
    method SaveBlock(block: Block, writeOk: bool) returns (r: Outcome<Error>)
      modifies this`blocks
      ensures r == if writeOk then Pass else Fail(StorageError)
      ensures blocks == if writeOk then old(blocks) + [block] else old(blocks)
    {
      if !writeOk {
        return Fail(StorageError);
      }
      blocks := blocks + [block];
      r := Pass;
    }

    /** Records `hash` as the head: inserts the pointer record when there is none, otherwise
        updates the record found by its `_id`. */
    method SaveLatestHash(hash: Hash, readOk: bool, writeOk: bool) returns (r: Outcome<Error>)
      modifies this`pointers
      ensures r == if readOk && writeOk then Pass else Fail(StorageError)
      ensures pointers == if r.Pass? then Upsert(old(pointers), hash) else old(pointers)
      ensures r.Pass? ==> LatestOf(pointers) == Success(hash)
      ensures r.Pass? && old(pointers) == [] ==> |pointers| == 1
      ensures r.Pass? && old(pointers) != [] ==> |pointers| == old(|pointers|) && pointers[0].id == old(pointers[0].id)
    {
      if !readOk {
        return Fail(StorageError);
      }
      if !writeOk {
        return Fail(StorageError);
      }
      UpsertEffect(pointers, hash);
      if pointers == [] {
        pointers := [PointerRecord(InsertedId, hash)];
      } else {
        pointers := UpdateById(pointers, pointers[0].id, hash);
      }
      r := Pass;
    }

    /** Whether the block collection holds no block. */
    method IsEmpty() returns (empty: bool)
      ensures empty <==> |blocks| == 0
    {
      empty := |blocks| == 0;
    }

    /** Loads the wallet, builds a transaction with it and appends that transaction to the
        mempool; when either step fails the mempool is left as it was. */
    method CreateTrxn(loaded: Result<Wallet, Error>, create: Wallet -> Result<Transaction, Error>)
      returns (r: Result<Transaction, Error>)
      modifies this`tempTransactions
      ensures loaded.Failure? ==> r == Failure(loaded.error)
      ensures loaded.Success? ==> r == create(loaded.value)
      ensures tempTransactions == if r.Success? then old(tempTransactions) + [r.value] else old(tempTransactions)
      ensures r.Success? ==>
                |tempTransactions| == old(|tempTransactions|) + 1 &&
                tempTransactions[..old(|tempTransactions|)] == old(tempTransactions) &&
                tempTransactions[|tempTransactions| - 1] == r.value
    {
      if loaded.Failure? {
        return Failure(loaded.error);
      }
      var trxn := create(loaded.value);
      if trxn.Failure? {
        return trxn;
      }
      tempTransactions := tempTransactions + [trxn.value];
      r := trxn;
    }
  }

  /** Walks the chain backward from a starting hash along parent links. */
  class BlockchainIterator {
    const chain: Blockchain
    var currentHash: Hash

    constructor (chain: Blockchain, currentHash: Hash)
      ensures this.chain == chain && this.currentHash == currentHash
    {
      this.chain := chain;
      this.currentHash := currentHash;
    }

    /** Returns the block stored under the current hash and moves to its parent link;
        on a miss returns no block and stays where it is. */
    method Next(readOk: bool) returns (r: Option<Block>)
      modifies this`currentHash
      ensures r == if readOk then Find(chain.blocks, old(currentHash)) else None
      ensures r.Some? ==> r.value.hash == old(currentHash) && r.value in chain.blocks
      ensures currentHash == if r.Some? then r.value.prevBlockHash else old(currentHash)
      ensures readOk ==> forall fuel: nat :: 0 < fuel ==>
                (Walk(chain.blocks, old(currentHash), fuel) ==
                 if r.Some? then [r.value] + Walk(chain.blocks, currentHash, fuel - 1) else [])
    {
      var nextBlock := chain.Find(currentHash, readOk);
      if nextBlock.Some? {
        currentHash := nextBlock.value.prevBlockHash;
      }
      r := nextBlock;
    }
  }

  /** Writes the genesis block and the pointer to it, once: a disk that already holds a block
      is refused and left as it was. */
  method Init(disk: Disk, digest: Digest, timestamp: int, coinbase: Transaction,
              blockWriteOk: bool, pointerReadOk: bool, pointerWriteOk: bool)
    returns (r: Result<Block, Error>, after: Disk)
    ensures disk.blocks != [] ==> r == Failure(Rejected(AlreadyInitializedMessage)) && after == disk
    ensures disk.blocks == [] ==>
      (r.Success? <==> blockWriteOk && pointerReadOk && pointerWriteOk) &&
      (r.Failure? ==> r.error == StorageError) &&
      after.blocks == (if blockWriteOk then [Genesis(digest, timestamp, coinbase)] else []) &&
      after.pointers == (if r.Success? then Upsert(disk.pointers, r.value.hash) else disk.pointers)
    ensures r.Success? ==> r.value == Genesis(digest, timestamp, coinbase) && after.blocks == [r.value]
    ensures r.Success? ==> LatestOf(after.pointers) == Success(r.value.hash)
    ensures r.Success? ==> (Settled(after) <==> r.value.hash != EmptyHash)
  {
    var blockchain := new Blockchain(disk, digest);
    var isEmpty := blockchain.IsEmpty();
    if !isEmpty {
      return Failure(Rejected(AlreadyInitializedMessage)), blockchain.Files();
    }
    var block := Genesis(digest, timestamp, coinbase);
    var saved := blockchain.SaveBlock(block, blockWriteOk);
    if saved.Fail? {
      return Failure(saved.error), blockchain.Files();
    }
    var pointed := blockchain.SaveLatestHash(block.hash, pointerReadOk, pointerWriteOk);
    if pointed.Fail? {
      return Failure(pointed.error), blockchain.Files();
    }
    GenesisLinked(block);
    r, after := Success(block), blockchain.Files();
  }

  /** Opens an initialised chain with its head loaded from the pointer record; an empty block
      collection is refused. */
  method Get(disk: Disk, digest: Digest, readOk: bool) returns (r: Result<Blockchain, Error>)
    ensures disk.blocks == [] ==> r == Failure(Rejected(NotInitializedMessage))
    ensures disk.blocks != [] && !readOk ==> r == Failure(StorageError)
    ensures disk.blocks != [] && readOk && disk.pointers == [] ==> r == Failure(PointerMissing)
    ensures r.Success? <==> disk.blocks != [] && readOk && disk.pointers != []
    ensures r.Success? ==> fresh(r.value) && r.value.digest == digest && r.value.Files() == disk
    ensures r.Success? ==> r.value.latestHash == disk.pointers[0].latestHash && r.value.tempTransactions == []
    ensures r.Success? && Settled(disk) ==> r.value.Consistent()
  {
    var blockchain := new Blockchain(disk, digest);
    var isEmpty := blockchain.IsEmpty();
    if isEmpty {
      return Failure(Rejected(NotInitializedMessage));
    }
    var latest := blockchain.GetLatestHash(readOk);
    if latest.Failure? {
      return Failure(latest.error);
    }
    blockchain.latestHash := latest.value;
    r := Success(blockchain);
  }
}
