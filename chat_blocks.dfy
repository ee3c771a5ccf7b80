/** Blocks of the two chat ledgers (chat-blockchain/chatblockchain.py and
    chat-http/chatblockchain.py define the same `Block`): a message record
    sealed by the hash of its four fields, its dictionary form, and the
    validity rule of `is_chain_valid`. */
module ChatBlocks {
  import opened Common

  /** The `{'username', 'message'}` record a chat block carries. */
  datatype Message = Message(username: string, message: string)

  /** The four fields `calculate_hash` serialises in sorted-key JSON. */
  datatype Header = Header(index: int, timestamp: string, data: Message, previousHash: Digest)

  /** JSON serialisation followed by SHA-256; never interpreted. */
  type Hasher = Header -> Digest

  /** A `Block` object. Blocks are never mutated once built, so they are values. */
  datatype Block = Block(index: int, timestamp: string, data: Message, previousHash: Digest, hash: Digest)

  /** The dictionary `to_dict` produces, and the shape of every block record
      read back from `blockchain.json` or received from a peer. */
  datatype BlockDict = BlockDict(index: int, timestamp: string, data: Message, previousHash: Digest, hash: Digest)

  function Fields(b: Block): Header {
    Header(b.index, b.timestamp, b.data, b.previousHash)
  }

  /** `calculate_hash()` */
  function CalculateHash(hasher: Hasher, b: Block): Digest {
    hasher(Fields(b))
  }

  /** The block's stored hash is the hash of its fields. */
  predicate Sealed(hasher: Hasher, b: Block) {
    b.hash == CalculateHash(hasher, b)
  }

  /** `Block(index, timestamp, data, previous_hash)`: the constructor stores
      its four arguments and seals them. */
  function NewBlock(hasher: Hasher, index: int, timestamp: string, data: Message, previousHash: Digest): (b: Block)
    ensures Fields(b) == Header(index, timestamp, data, previousHash)
    ensures Sealed(hasher, b)
  {
    Block(index, timestamp, data, previousHash, hasher(Header(index, timestamp, data, previousHash)))
  }

  /** `to_dict()` */
  function ToDict(b: Block): (d: BlockDict)
    ensures FromDictFields(d) == Fields(b) && d.hash == b.hash
  {
    BlockDict(b.index, b.timestamp, b.data, b.previousHash, b.hash)
  }

  function FromDictFields(d: BlockDict): Header {
    Header(d.index, d.timestamp, d.data, d.previousHash)
  }

  /** `Block(index=d['index'], timestamp=d['timestamp'], data=d['data'],
      previous_hash=d['previous_hash'])`, the rebuild used when loading the
      saved chain, when checking a peer chain and when accepting a block
      from a peer: the declared `'hash'` is dropped and recomputed. */
  function FromDict(hasher: Hasher, d: BlockDict): (b: Block)
    ensures Fields(b) == FromDictFields(d) && Sealed(hasher, b)
  {
    NewBlock(hasher, d.index, d.timestamp, d.data, d.previousHash)
  }

  /** The list comprehension rebuilding a whole saved or received chain. */
  function RebuildAll(hasher: Hasher, ds: seq<BlockDict>): (bs: seq<Block>)
    ensures |bs| == |ds|
    ensures forall i :: 0 <= i < |ds| ==> bs[i] == FromDict(hasher, ds[i])
  {
    seq(|ds|, i requires 0 <= i < |ds| => FromDict(hasher, ds[i]))
  }

  /** `[block.to_dict() for block in chain]`, as `save_chain` writes it and
      the `/get_chain` route serves it. */
  function Dicts(bs: seq<Block>): (ds: seq<BlockDict>)
    ensures |ds| == |bs|
    ensures forall i :: 0 <= i < |bs| ==> ds[i] == ToDict(bs[i])
  {
    seq(|bs|, i requires 0 <= i < |bs| => ToDict(bs[i]))
  }

  /** A sealed block survives `to_dict` followed by the rebuild unchanged;
      a dictionary survives the rebuild followed by `to_dict` exactly when its
      declared hash is the hash of its fields. */
  lemma DictRoundTrip(hasher: Hasher, b: Block, d: BlockDict)
    ensures Sealed(hasher, b) <==> FromDict(hasher, ToDict(b)) == b
    ensures ToDict(FromDict(hasher, d)) == d <==> d.hash == hasher(FromDictFields(d))
  {
  }

  /** Saving a chain whose every block is sealed and loading it back yields the
      same chain. */
  lemma {:induction false} SaveLoadRoundTrip(hasher: Hasher, bs: seq<Block>)
    requires forall i :: 0 <= i < |bs| ==> Sealed(hasher, bs[i])
    ensures RebuildAll(hasher, Dicts(bs)) == bs
  {
    forall i | 0 <= i < |bs|
      ensures RebuildAll(hasher, Dicts(bs))[i] == bs[i]
    {
      DictRoundTrip(hasher, bs[i], ToDict(bs[i]));
    }
  }

  /** Two dictionaries that differ only in the declared hash rebuild to the
      same block. */
  lemma FromDictIgnoresDeclaredHash(hasher: Hasher, d: BlockDict, declared: Digest)
    ensures FromDict(hasher, d.(hash := declared)) == FromDict(hasher, d)
  {
  }

  /** The genesis block of `create_genesis_block`. */
  function Genesis(hasher: Hasher, now: string): (g: Block)
    ensures g.index == 0 && g.previousHash == "0"
    ensures g.data == Message("System", "Genesis Block")
    ensures Sealed(hasher, g)
  {
    NewBlock(hasher, 0, now, Message("System", "Genesis Block"), "0")
  }

  /** `is_chain_valid()`: every block after the first carries the hash of its
      own fields and names the stored hash of its predecessor. The first block
      is never checked. */
  predicate ChainValid(hasher: Hasher, chain: seq<Block>) {
    forall i :: 1 <= i < |chain| ==>
      Sealed(hasher, chain[i]) && chain[i].previousHash == chain[i - 1].hash
  }

  /** Every block of the chain is sealed, as every block built by the
      constructor is. */
  predicate AllSealed(hasher: Hasher, chain: seq<Block>) {
    forall i :: 0 <= i < |chain| ==> Sealed(hasher, chain[i])
  }

  /** The block `add_block` builds after `chain`. */
  function NextBlock(hasher: Hasher, chain: seq<Block>, now: string, data: Message): (b: Block)
    requires |chain| >= 1
    ensures b.index == |chain| && b.previousHash == chain[|chain| - 1].hash
    ensures b.data == data && b.timestamp == now && Sealed(hasher, b)
  {
    NewBlock(hasher, |chain|, now, data, chain[|chain| - 1].hash)
  }

  /** A sealed block naming the head's hash keeps a valid chain valid. */
  lemma ExtendKeepsValid(hasher: Hasher, chain: seq<Block>, b: Block)
    requires |chain| >= 1 && ChainValid(hasher, chain)
    requires Sealed(hasher, b) && b.previousHash == chain[|chain| - 1].hash
    ensures ChainValid(hasher, chain + [b])
    ensures AllSealed(hasher, chain) ==> AllSealed(hasher, chain + [b])
  {
    var c := chain + [b];
    forall i | 1 <= i < |c|
      ensures Sealed(hasher, c[i]) && c[i].previousHash == c[i - 1].hash
    {
      if i < |chain| {
        assert c[i] == chain[i] && c[i - 1] == chain[i - 1];
      }
    }
  }

  /** Rewriting any of a non-genesis block's four fields while keeping its
      stored hash is detected whenever the hash tells the two field tuples
      apart. */
  lemma TamperDetected(hasher: Hasher, chain: seq<Block>, i: nat, forged: Header)
    requires 1 <= i < |chain| && ChainValid(hasher, chain)
    requires hasher(forged) != hasher(Fields(chain[i]))
    ensures !ChainValid(hasher, chain[i := Block(forged.index, forged.timestamp, forged.data,
                                                 forged.previousHash, chain[i].hash)])
  {
    var c := chain[i := Block(forged.index, forged.timestamp, forged.data, forged.previousHash, chain[i].hash)];
    assert Fields(c[i]) == forged;
  }

  /** `is_chain_valid()` as its early-return loop. */
  method IsChainValid(hasher: Hasher, chain: seq<Block>) returns (valid: bool)
    ensures valid == ChainValid(hasher, chain)
  {
    var i := 1;
    while i < |chain|
      invariant 1 <= i
      invariant forall j :: 1 <= j < i && j < |chain| ==>
        Sealed(hasher, chain[j]) && chain[j].previousHash == chain[j - 1].hash
    {
      var current := chain[i];
      var previous := chain[i - 1];
      if current.hash != CalculateHash(hasher, current) {
        return false;
      }
      if current.previousHash != previous.hash {
        return false;
      }
      i := i + 1;
    }
    return true;
  }

  /** `[block.data for block in blocks]` */
  function Payloads(blocks: seq<Block>): (ms: seq<Message>)
    ensures |ms| == |blocks|
    ensures forall i :: 0 <= i < |blocks| ==> ms[i] == blocks[i].data
    decreases |blocks|
  {
    if blocks == [] then [] else [blocks[0].data] + Payloads(blocks[1..])
  }

  /** Appending a block appends its message. */
  lemma {:induction false} PayloadsAppend(blocks: seq<Block>, b: Block)
    ensures Payloads(blocks + [b]) == Payloads(blocks) + [b.data]
  {
    assert forall i :: 0 <= i < |blocks| ==> (blocks + [b])[i] == blocks[i];
  }
}
