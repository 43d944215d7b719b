/** Records of the two persisted collections, the lookups the chain performs on
    them, and the shape of a chain that genesis and successive mining build. */
module Ledger {
  import opened Outcomes

  type Hash = string

  /** The parent link of the genesis block. */
  const EmptyHash: Hash := ""

  /** The `_id` the pointer record receives when it is first inserted. */
  const InsertedId: nat := 0

  const AlreadyInitializedMessage: string := "Blockchain is already initialized"
  const NotInitializedMessage: string := "Blockchain is not initialized"

  /** A transaction as the chain stores it; its inputs and outputs are the UTXO engine's business. */
  datatype Transaction = Transaction(id: Hash)

  /** A loaded wallet, as `Transaction.create` receives it. */
  datatype Wallet = Wallet(address: string)

  /** One document of the block collection. */
  datatype Block = Block(hash: Hash, prevBlockHash: Hash, timestamp: int, data: seq<Transaction>)

  /** One document of the latest-hash collection: its store-assigned `_id` and the head it records. */
  datatype PointerRecord = PointerRecord(id: nat, latestHash: Hash)

  /** Why a chain operation rejects. */
  datatype Error =
    | Rejected(message: string)  // a plain string rejection of `init` or `get`
    | StorageError               // an `err` handed back by the record store
    | PointerMissing             // `getLatestHash` found no pointer record to read
    | WalletError                // `Wallet.load` failed
    | TransactionError           // `Transaction.create` failed

  /** The block digest over (parent link, timestamp, transactions); its algorithm is not modelled. */
  type Digest = (Hash, int, seq<Transaction>) -> Hash

  /** A block built from its contents and sealed with its digest. */
  function Seal(digest: Digest, prev: Hash, timestamp: int, data: seq<Transaction>): (b: Block)
  {
    Block(digest(prev, timestamp, data), prev, timestamp, data)
  }

  /** The genesis block: no parent, and the one coinbase transaction crediting the initial address. */
  function Genesis(digest: Digest, timestamp: int, coinbase: Transaction): (g: Block)
  {
    Seal(digest, EmptyHash, timestamp, [coinbase])
  }

  function Hashes(blocks: seq<Block>): (hs: set<Hash>)
  {
    set b | b in blocks :: b.hash
  }

  // ---------------------------------------------------------------------------
  // Lookups in the block collection

  /** `findOne({hash: h})` on the block collection: the first block stored with that hash, if any. */
  function Find(blocks: seq<Block>, h: Hash): (r: Option<Block>)
    ensures r.Some? ==> r.value in blocks && r.value.hash == h
    ensures r.None? <==> forall b :: b in blocks ==> b.hash != h
  {
    if blocks == [] then None
    else if blocks[0].hash == h then Some(blocks[0])
    else Find(blocks[1..], h)
  }

  /** A block whose hash no earlier block shares is the one a lookup of that hash returns. */
  lemma {:induction false} FindAt(blocks: seq<Block>, k: nat)
    requires k < |blocks|
    requires forall j :: 0 <= j < k ==> blocks[j].hash != blocks[k].hash
    ensures Find(blocks, blocks[k].hash) == Some(blocks[k])
  {
    if k > 0 {
      assert blocks[0].hash != blocks[k].hash;
      var rest := blocks[1..];
      assert rest[k - 1] == blocks[k];
      forall j | 0 <= j < k - 1
        ensures rest[j].hash != rest[k - 1].hash
      {
        assert rest[j] == blocks[j + 1];
      }
      FindAt(rest, k - 1);
    }
  }

  /** The blocks returned by at most `fuel` successive iterator steps from `h`, up to the first miss:
      each step returns the block found under the current hash and moves to its parent link. */
  function Walk(blocks: seq<Block>, h: Hash, fuel: nat): (r: seq<Block>)
    ensures |r| <= fuel
    ensures forall b :: b in r ==> b in blocks
    ensures r != [] ==> r[0].hash == h
    decreases fuel
  {
    if fuel == 0 then []
    else match Find(blocks, h)
      case None => []
      case Some(b) => [b] + Walk(blocks, b.prevBlockHash, fuel - 1)
  }

  function Reversed(s: seq<Block>): (r: seq<Block>)
  {
    if s == [] then [] else [s[|s| - 1]] + Reversed(s[..|s| - 1])
  }

  // ---------------------------------------------------------------------------
  // The chain that genesis followed by successive mining builds

  predicate DistinctHashes(blocks: seq<Block>)
  {
    forall i, j :: 0 <= i < j < |blocks| ==> blocks[i].hash != blocks[j].hash
  }

  /** blocks[0] is genesis, whose parent link matches no stored block; every later block links to
      the block stored just before it; no two blocks share a hash. */
  predicate Linked(blocks: seq<Block>)
  {
    |blocks| > 0 &&
    DistinctHashes(blocks) &&
    (forall i :: 0 < i < |blocks| ==> blocks[i].prevBlockHash == blocks[i - 1].hash) &&
    blocks[0].prevBlockHash !in Hashes(blocks)
  }

  function Head(blocks: seq<Block>): (h: Hash)
    requires blocks != []
  {
    blocks[|blocks| - 1].hash
  }

  /** The collision-resistance assumption for a newly computed digest `h`: it differs from every
      hash and every parent link already in the store. */
  predicate FreshDigest(blocks: seq<Block>, h: Hash)
  {
    forall b :: b in blocks ==> h != b.hash && h != b.prevBlockHash
  }

  /** A genesis block alone is a linked chain exactly when its digest is not the empty parent link. */
  lemma GenesisLinked(g: Block)
    requires g.prevBlockHash == EmptyHash
    ensures Linked([g]) <==> g.hash != EmptyHash
  {
  }

  /** Appending a block whose parent is the current head and whose digest is fresh keeps the chain linked. */
  lemma ExtendLinked(blocks: seq<Block>, b: Block)
    requires Linked(blocks)
    requires b.prevBlockHash == Head(blocks)
    requires FreshDigest(blocks, b.hash)
    ensures Linked(blocks + [b]) && Head(blocks + [b]) == b.hash
  {
  }

  /** In a linked chain the lookup of genesis' parent link misses. */
  lemma GenesisParentMisses(blocks: seq<Block>)
    requires Linked(blocks)
    ensures Find(blocks, blocks[0].prevBlockHash) == None
  {
    forall b | b in blocks
      ensures b.hash != blocks[0].prevBlockHash
    {
      assert b.hash in Hashes(blocks);
    }
  }

  /** Iterating from the hash of blocks[k] of a linked chain returns blocks[k], blocks[k - 1], ...,
      genesis, and then misses, however many further steps are allowed. */
  lemma {:induction false} WalkLinked(blocks: seq<Block>, k: nat, fuel: nat)
    requires Linked(blocks)
    requires k < |blocks| && k < fuel
    ensures Walk(blocks, blocks[k].hash, fuel) == Reversed(blocks[..k + 1])
  {
    FindAt(blocks, k);
    assert Walk(blocks, blocks[k].hash, fuel) == [blocks[k]] + Walk(blocks, blocks[k].prevBlockHash, fuel - 1);
    assert blocks[..k + 1][..k] == blocks[..k];
    assert Reversed(blocks[..k + 1]) == [blocks[k]] + Reversed(blocks[..k]);
    if k == 0 {
      GenesisParentMisses(blocks);
      assert Walk(blocks, blocks[0].prevBlockHash, fuel - 1) == [];
      assert Reversed(blocks[..0]) == [];
    } else {
      assert blocks[k].prevBlockHash == blocks[k - 1].hash;
      WalkLinked(blocks, k - 1, fuel - 1);
    }
  }

  /** Iterating from the head of a linked chain yields the whole chain newest-first, genesis last,
      and the walk stops there: the next lookup, of genesis' parent link, misses. */
  lemma WalkFromHead(blocks: seq<Block>, fuel: nat)
    requires Linked(blocks)
    requires |blocks| <= fuel
    ensures Walk(blocks, Head(blocks), fuel) == Reversed(blocks)
    ensures Find(blocks, blocks[0].prevBlockHash) == None
  {
    WalkLinked(blocks, |blocks| - 1, fuel);
    assert blocks[..|blocks|] == blocks;
    GenesisParentMisses(blocks);
  }

  // ---------------------------------------------------------------------------
  // The latest-hash collection

  /** `update({_id: id}, {latestHash: h})` without `multi`: the first record with that `_id` gets
      the new head and keeps its `_id`; every other record is untouched. */
  function UpdateById(ps: seq<PointerRecord>, id: nat, h: Hash): (r: seq<PointerRecord>)
    ensures |r| == |ps|
    ensures forall i :: 0 <= i < |ps| ==>
      r[i] == (if ps[i].id == id && (forall j :: 0 <= j < i ==> ps[j].id != id)
               then PointerRecord(id, h) else ps[i])
  {
    if ps == [] then []
    else if ps[0].id == id then [PointerRecord(id, h)] + ps[1..]
    else
      var tail := UpdateById(ps[1..], id, h);
      assert forall i :: 1 <= i < |ps| ==> ps[1..][i - 1] == ps[i];
      [ps[0]] + tail
  }

  /** `findOne({})` on the latest-hash collection, read for its `latestHash` field. */
  function LatestOf(ps: seq<PointerRecord>): (r: Result<Hash, Error>)
    ensures r.Success? <==> ps != []
    ensures r.Success? ==> r.value == ps[0].latestHash
    ensures r.Failure? ==> r.error == PointerMissing
  {
    if ps == [] then Failure(PointerMissing) else Success(ps[0].latestHash)
  }

  /** What a successful `saveLatestHash(h)` leaves: with no record, one inserted record; otherwise
      the record `findOne({})` found, updated by its `_id`. */
  function Upsert(ps: seq<PointerRecord>, h: Hash): (r: seq<PointerRecord>)
    ensures |r| == if ps == [] then 1 else |ps|
    ensures r[0].latestHash == h
    ensures ps == [] ==> r[0].id == InsertedId
    ensures ps != [] ==> r[0].id == ps[0].id && r[1..] == ps[1..]
  {
    if ps == [] then [PointerRecord(InsertedId, h)] else UpdateById(ps, ps[0].id, h)
  }

  /** The upsert inserts exactly one record into an empty collection, otherwise changes only the
      first record's head, never the number of records; the head read back is `h`. */
  lemma UpsertEffect(ps: seq<PointerRecord>, h: Hash)
    ensures ps == [] ==> Upsert(ps, h) == [PointerRecord(InsertedId, h)]
    ensures ps != [] ==> Upsert(ps, h) == [PointerRecord(ps[0].id, h)] + ps[1..]
    ensures LatestOf(Upsert(ps, h)) == Success(h)
  {
  }

  /** A latest-hash collection of at most one record holds exactly one after the upsert. */
  lemma UpsertKeepsSingle(ps: seq<PointerRecord>, h: Hash)
    requires |ps| <= 1
    ensures |Upsert(ps, h)| == 1
    ensures Upsert(ps, h)[0].latestHash == h
  {
  }
}
