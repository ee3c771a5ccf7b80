/** The decision rules of the chat node's HTTP routes (chat-http/app.py):
    accepting a block sealed elsewhere and growing the peer registry. Request
    parsing, responses and the outgoing requests are not part of the model. */
module ChatHttpApp {
  import opened Common
  import opened ChatBlocks
  import opened ChatPeers

  /** The test of the `/add_block` route: the local chain is valid and the
      rebuilt incoming block names the hash of the local head. */
  predicate Accepts(hasher: Hasher, chain: seq<Block>, incoming: BlockDict)
    requires |chain| >= 1
  {
    ChainValid(hasher, chain) && FromDict(hasher, incoming).previousHash == chain[|chain| - 1].hash
  }

  /** Acceptance looks only at the incoming `previous_hash`: its index,
      timestamp, data and declared hash play no part. */
  lemma AcceptanceReadsOnlyPreviousHash(hasher: Hasher, chain: seq<Block>, incoming: BlockDict,
                                           index: int, timestamp: string, data: Message, declared: Digest)
    requires |chain| >= 1
    ensures Accepts(hasher, chain, incoming) ==
            Accepts(hasher, chain, incoming.(index := index, timestamp := timestamp, data := data, hash := declared))
  {
  }

  /** A block an honest peer built on the same head is accepted, and the
      block appended is exactly the peer's block. */
  lemma HonestBlockAccepted(hasher: Hasher, chain: seq<Block>, now: string, data: Message)
    requires |chain| >= 1 && ChainValid(hasher, chain)
    ensures Accepts(hasher, chain, ToDict(NextBlock(hasher, chain, now, data)))
    ensures FromDict(hasher, ToDict(NextBlock(hasher, chain, now, data))) == NextBlock(hasher, chain, now, data)
  {
    DictRoundTrip(hasher, NextBlock(hasher, chain, now, data), ToDict(NextBlock(hasher, chain, now, data)));
  }

  /** The `/add_block` route: the incoming block is rebuilt from its fields
      and appended exactly when `Accepts` holds; otherwise nothing changes.
      The broadcast to the peers is not modelled. */
  method AddBlockRoute(node: PeerBlockchain, incoming: BlockDict) returns (accepted: bool)
    requires node.Valid()
    modifies node.ledger
    ensures node.Valid() && node.ledger.users == old(node.ledger.users)
    ensures accepted == Accepts(node.ledger.hasher, old(node.ledger.chain), incoming)
    ensures accepted ==> node.ledger.chain == old(node.ledger.chain) + [FromDict(node.ledger.hasher, incoming)]
    ensures accepted ==> ChainValid(node.ledger.hasher, node.ledger.chain)
    ensures !accepted ==> node.ledger.chain == old(node.ledger.chain)
  {
    var hasher := node.ledger.hasher;
    var newBlock := FromDict(hasher, incoming);
    var valid := node.ledger.IsChainValid();
    if valid && newBlock.previousHash == node.ledger.chain[|node.ledger.chain| - 1].hash {
      ExtendKeepsValid(hasher, node.ledger.chain, newBlock);
      node.ledger.chain := node.ledger.chain + [newBlock];
      return true;
    }
    return false;
  }

  /** The `/register_peer` route: a missing or empty address is refused;
      any other address is added to the peers. */
  method RegisterPeerRoute(node: PeerBlockchain, address: Option<string>) returns (ok: bool)
    modifies node
    ensures ok <==> address.Some? && address.value != ""
    ensures ok ==> node.peers == old(node.peers) + {address.value}
    ensures !ok ==> node.peers == old(node.peers)
  {
    if address.None? || address.value == "" {
      return false;
    }
    node.RegisterPeer(address.value);
    ok := true;
  }

  /** The `/register_node` route: a missing or empty address is refused;
      otherwise the address is announced to every peer already known (in
      some order, failures ignored) and then added to the peers. `notified`
      is the set of peers announced to. */
  method RegisterNodeRoute(node: PeerBlockchain, address: Option<string>) returns (ok: bool, notified: set<string>)
    modifies node
    ensures ok <==> address.Some? && address.value != ""
    ensures ok ==> notified == old(node.peers) && node.peers == old(node.peers) + {address.value}
    ensures !ok ==> notified == {} && node.peers == old(node.peers)
  {
    notified := {};
    if address.None? || address.value == "" {
      return false, notified;
    }
    // The announcement loop of chat-http/app.py:46-50 posts to each known
    // peer once, ignoring failures; what it leaves behind is the set of
    // peers reached.
    notified := node.peers;
    node.RegisterPeer(address.value);
    ok := true;
  }
}
