/** The peer members chat-http/chatblockchain.py adds to the chat ledger: a
    set of peer addresses, re-verification of a peer's chain from its
    dictionaries, and longest-chain consensus over the peers' replies. */
module ChatPeers {
  import opened Common
  import opened ChatBlocks
  import opened ChatLedger

  /** Every declared `'hash'` is the hash of its block's own fields. */
  predicate DeclaredHashesMatch(hasher: Hasher, peerChain: seq<BlockDict>) {
    forall i :: 0 <= i < |peerChain| ==> peerChain[i].hash == hasher(FromDictFields(peerChain[i]))
  }

  /** The rebuilt blocks are linked: each names its predecessor's hash. */
  predicate Linked(chain: seq<Block>) {
    forall i :: 1 <= i < |chain| ==> chain[i].previousHash == chain[i - 1].hash
  }

  /** `validate_peer_chain(peer_chain)` */
  predicate PeerChainValid(hasher: Hasher, peerChain: seq<BlockDict>) {
    DeclaredHashesMatch(hasher, peerChain) && Linked(RebuildAll(hasher, peerChain))
  }

  /** A chain that passes peer validation rebuilds to a valid chain whose
      dictionaries are exactly the ones received. */
  lemma ValidPeerChainIsValidChain(hasher: Hasher, peerChain: seq<BlockDict>)
    requires PeerChainValid(hasher, peerChain)
    ensures ChainValid(hasher, RebuildAll(hasher, peerChain))
    ensures AllSealed(hasher, RebuildAll(hasher, peerChain))
    ensures Dicts(RebuildAll(hasher, peerChain)) == peerChain
  {
    var rebuilt := RebuildAll(hasher, peerChain);
    forall i | 0 <= i < |peerChain|
      ensures Dicts(rebuilt)[i] == peerChain[i]
    {
      DictRoundTrip(hasher, rebuilt[i], peerChain[i]);
    }
  }

  /** What an honest node serves passes peer validation: the dictionaries of a
      valid chain of sealed blocks. */
  lemma HonestChainPasses(hasher: Hasher, chain: seq<Block>)
    requires ChainValid(hasher, chain) && AllSealed(hasher, chain)
    ensures PeerChainValid(hasher, Dicts(chain))
  {
    SaveLoadRoundTrip(hasher, chain);
  }

  /** The answer of one peer to `GET /get_chain`. */
  datatype PeerReply = PeerReply(status: int, chain: seq<BlockDict>)

  /** The test `resolve_conflicts` applies to one reply against the longest
      length seen so far. */
  predicate Eligible(hasher: Hasher, reply: PeerReply, maxLength: int) {
    reply.status == 200 && |reply.chain| > maxLength && PeerChainValid(hasher, reply.chain)
  }

  /** The loop of `resolve_conflicts` over the replies, in the order the peers
      are visited, from the longest length `maxLength` and the chain `best`
      kept so far. */
  function SelectFrom(hasher: Hasher, maxLength: int, best: Option<seq<BlockDict>>,
                      replies: seq<PeerReply>): Option<seq<BlockDict>>
    decreases |replies|
  {
    if replies == [] then best
    else if Eligible(hasher, replies[0], maxLength) then
      SelectFrom(hasher, |replies[0].chain|, Some(replies[0].chain), replies[1..])
    else SelectFrom(hasher, maxLength, best, replies[1..])
  }

  /** The chain `resolve_conflicts` adopts, if any, for a local chain of
      length `localLength`. */
  function SelectPeerChain(hasher: Hasher, localLength: int, replies: seq<PeerReply>): Option<seq<BlockDict>> {
    SelectFrom(hasher, localLength, None, replies)
  }

  predicate NoneEligible(hasher: Hasher, maxLength: int, replies: seq<PeerReply>) {
    forall i :: 0 <= i < |replies| ==> !Eligible(hasher, replies[i], maxLength)
  }

  /** Reply `j` is eligible, no eligible reply is longer, and every eligible
      reply before it is strictly shorter. */
  predicate Winner(hasher: Hasher, maxLength: int, replies: seq<PeerReply>, j: int) {
    0 <= j < |replies| && Eligible(hasher, replies[j], maxLength) &&
    (forall i :: 0 <= i < |replies| && Eligible(hasher, replies[i], maxLength) ==>
       |replies[i].chain| <= |replies[j].chain|) &&
    (forall i :: 0 <= i < j && Eligible(hasher, replies[i], maxLength) ==>
       |replies[i].chain| < |replies[j].chain|)
  }

  lemma EligibleAtLower(hasher: Hasher, reply: PeerReply, lower: int, higher: int)
    requires lower <= higher && Eligible(hasher, reply, higher)
    ensures Eligible(hasher, reply, lower)
  {
  }

  /** The loop keeps what it had when no reply qualifies, and otherwise ends
      with the first of the longest qualifying chains. */
  lemma {:induction false} SelectFromSpec(hasher: Hasher, maxLength: int, best: Option<seq<BlockDict>>,
                                          replies: seq<PeerReply>)
    ensures NoneEligible(hasher, maxLength, replies) ==> SelectFrom(hasher, maxLength, best, replies) == best
    ensures !NoneEligible(hasher, maxLength, replies) ==>
      exists j :: Winner(hasher, maxLength, replies, j) &&
        SelectFrom(hasher, maxLength, best, replies) == Some(replies[j].chain)
    decreases |replies|
  {
    if replies == [] {
      return;
    }
    var rest := replies[1..];
    assert forall i :: 0 <= i < |rest| ==> rest[i] == replies[i + 1];
    if Eligible(hasher, replies[0], maxLength) {
      var m := |replies[0].chain|;
      SelectFromSpec(hasher, m, Some(replies[0].chain), rest);
      if NoneEligible(hasher, m, rest) {
        assert Winner(hasher, maxLength, replies, 0) by {
          forall i | 0 <= i < |replies| && Eligible(hasher, replies[i], maxLength)
            ensures |replies[i].chain| <= m
          {
            if i > 0 {
              assert !Eligible(hasher, rest[i - 1], m);
            }
          }
        }
      } else {
        var k :| Winner(hasher, m, rest, k) && SelectFrom(hasher, m, Some(replies[0].chain), rest) == Some(rest[k].chain);
        EligibleAtLower(hasher, rest[k], maxLength, m);
        assert Winner(hasher, maxLength, replies, k + 1) by {
          forall i | 0 <= i < |replies| && Eligible(hasher, replies[i], maxLength)
            ensures |replies[i].chain| <= |rest[k].chain|
            ensures i < k + 1 ==> |replies[i].chain| < |rest[k].chain|
          {
            if i > 0 && |replies[i].chain| > m {
              assert Eligible(hasher, rest[i - 1], m);
            }
          }
        }
      }
    } else {
      SelectFromSpec(hasher, maxLength, best, rest);
      if NoneEligible(hasher, maxLength, rest) {
        assert NoneEligible(hasher, maxLength, replies) by {
          forall i | 0 <= i < |replies|
            ensures !Eligible(hasher, replies[i], maxLength)
          {
            if i > 0 {
              assert !Eligible(hasher, rest[i - 1], maxLength);
            }
          }
        }
      } else {
        var k :| Winner(hasher, maxLength, rest, k) && SelectFrom(hasher, maxLength, best, rest) == Some(rest[k].chain);
        assert Winner(hasher, maxLength, replies, k + 1) by {
          forall i | 0 <= i < |replies| && Eligible(hasher, replies[i], maxLength)
            ensures |replies[i].chain| <= |rest[k].chain|
            ensures i < k + 1 ==> |replies[i].chain| < |rest[k].chain|
          {
            if i > 0 {
              assert Eligible(hasher, rest[i - 1], maxLength);
            }
          }
        }
      }
    }
  }

  /** `resolve_conflicts` adopts nothing exactly when no reply is a valid
      chain strictly longer than the local one; otherwise it adopts the first
      of the longest such chains. */
  lemma SelectPeerChainSpec(hasher: Hasher, localLength: int, replies: seq<PeerReply>)
    ensures SelectPeerChain(hasher, localLength, replies).None? <==> NoneEligible(hasher, localLength, replies)
    ensures SelectPeerChain(hasher, localLength, replies).Some? ==>
      exists j :: Winner(hasher, localLength, replies, j) &&
        SelectPeerChain(hasher, localLength, replies).value == replies[j].chain
  {
    SelectFromSpec(hasher, localLength, None, replies);
  }

  /** A second resolution against the same replies adopts nothing. */
  lemma ResolveIsIdempotent(hasher: Hasher, localLength: int, replies: seq<PeerReply>)
    ensures var first := SelectPeerChain(hasher, localLength, replies);
      SelectPeerChain(hasher, if first.Some? then |first.value| else localLength, replies).None?
  {
    var first := SelectPeerChain(hasher, localLength, replies);
    SelectPeerChainSpec(hasher, localLength, replies);
    if first.Some? {
      var j :| Winner(hasher, localLength, replies, j) && first.value == replies[j].chain;
      var m := |first.value|;
      forall i | 0 <= i < |replies|
        ensures !Eligible(hasher, replies[i], m)
      {
        if Eligible(hasher, replies[i], m) {
          EligibleAtLower(hasher, replies[i], localLength, m);
        }
      }
      SelectPeerChainSpec(hasher, m, replies);
    }
  }

  /** The parameter names of the chat `Block` constructor. */
  const BlockParameters: set<string> := {"index", "timestamp", "data", "previous_hash"}

  /** The keys of a block dictionary as `to_dict` writes it and
      `validate_peer_chain` reads it (`'hash'` included). Every `BlockDict`
      carries all five, so the key set is the same for every dictionary. */
  const BlockDictKeys: set<string> := {"index", "timestamp", "data", "previous_hash", "hash"}

  /** `Block(**block)`: Python binds each key of the dictionary to the
      parameter of that name; an unknown key or a missing parameter raises
      TypeError. Since every dictionary has the key set `BlockDictKeys`, the
      binding branch is kept only to show what a matching key set would do. */
  function BlockFromKeywords(hasher: Hasher, d: BlockDict): Outcome<Block> {
    if BlockDictKeys - BlockParameters != {} || BlockParameters - BlockDictKeys != {} then Raised(TypeError)
    else Ok(NewBlock(hasher, d.index, d.timestamp, d.data, d.previousHash))
  }

  /** The `'hash'` key has no parameter to bind to, so every block dictionary
      makes `Block(**block)` raise TypeError. */
  lemma KeywordRebuildRaises(hasher: Hasher, d: BlockDict)
    ensures "hash" in BlockDictKeys - BlockParameters
    ensures BlockFromKeywords(hasher, d) == Raised(TypeError)
  {
    assert "hash" in BlockDictKeys;
    assert "hash" != "index" && "hash" != "timestamp" && "hash" != "data" && "hash" != "previous_hash";
  }

  /** The adoption step of chat-http/chatblockchain.py as written: the first
      rebuild raises, so the chain is never replaced. */
  function AdoptAsWritten(hasher: Hasher, chain: seq<Block>, selected: Option<seq<BlockDict>>): Outcome<(bool, seq<Block>)> {
    match selected
    case None => Ok((false, chain))
    case Some(peerChain) =>
      if peerChain == [] then Ok((false, chain))
      else match BlockFromKeywords(hasher, peerChain[0])
        case Raised(e) => Raised(e)
        case Ok(_) => Ok((true, RebuildAll(hasher, peerChain)))
  }

  /** As written, `resolve_conflicts` never reports a replacement: it either
      returns False or raises TypeError. */
  lemma AsWrittenNeverAdopts(hasher: Hasher, chain: seq<Block>, localLength: int, replies: seq<PeerReply>)
    ensures var r := AdoptAsWritten(hasher, chain, SelectPeerChain(hasher, localLength, replies));
      r == Ok((false, chain)) || r == Raised(TypeError)
    ensures SelectPeerChain(hasher, localLength, replies).Some? && localLength >= 0 ==>
      AdoptAsWritten(hasher, chain, SelectPeerChain(hasher, localLength, replies)) == Raised(TypeError)
  {
    var sel := SelectPeerChain(hasher, localLength, replies);
    SelectPeerChainSpec(hasher, localLength, replies);
    if sel.Some? && localLength >= 0 {
      var j :| Winner(hasher, localLength, replies, j) && sel.value == replies[j].chain;
      KeywordRebuildRaises(hasher, sel.value[0]);
    }
  }

  /** The raising path is reached: a node holding only its genesis block
      that hears from an honest peer one block ahead raises TypeError. */
  lemma AsWrittenAdoptionRaises(hasher: Hasher, now: string, data: Message)
    ensures var genesis := Genesis(hasher, now);
      var peerChain := [genesis, NextBlock(hasher, [genesis], now, data)];
      var replies := [PeerReply(200, Dicts(peerChain))];
      SelectPeerChain(hasher, 1, replies) == Some(Dicts(peerChain)) &&
      AdoptAsWritten(hasher, [genesis], SelectPeerChain(hasher, 1, replies)) == Raised(TypeError)
  {
    var genesis := Genesis(hasher, now);
    var peerChain := [genesis, NextBlock(hasher, [genesis], now, data)];
    var replies := [PeerReply(200, Dicts(peerChain))];
    ExtendKeepsValid(hasher, [genesis], peerChain[1]);
    assert [genesis] + [peerChain[1]] == peerChain;
    HonestChainPasses(hasher, peerChain);
    assert Eligible(hasher, replies[0], 1);
    assert replies[1..] == [];
    assert SelectFrom(hasher, 2, Some(Dicts(peerChain)), []) == Some(Dicts(peerChain));
    assert SelectPeerChain(hasher, 1, replies) == Some(Dicts(peerChain));
    assert Dicts(peerChain) != [];
    KeywordRebuildRaises(hasher, Dicts(peerChain)[0]);
  }

  /** The chat ledger of chat-http/chatblockchain.py: the chat ledger's chain
      and users, and a set of peer addresses. */
  class PeerBlockchain {
    const ledger: Blockchain
    var peers: set<string>

    predicate Valid()
      reads this, ledger
    {
      ledger.Valid()
    }

    /** `Blockchain()` of chat-http/chatblockchain.py: the chat ledger's
        constructor with an empty peer set. */
    constructor (hasher: Hasher, passwordHash: PasswordHasher, saved: seq<BlockDict>,
                 savedUsers: map<string, Digest>, now: string)
      ensures Valid() && fresh(ledger)
      ensures ledger.hasher == hasher && ledger.passwordHash == passwordHash
      ensures ledger.chain == if saved == [] then [Genesis(hasher, now)] else RebuildAll(hasher, saved)
      ensures ledger.users == savedUsers && peers == {}
    {
      ledger := new Blockchain(hasher, passwordHash, saved, savedUsers, now);
      peers := {};
    }

    /** `register_peer(address)`: set insertion. */
    method RegisterPeer(address: string)
      modifies this
      ensures forall a :: a in peers <==> a in old(peers) || a == address
    {
      peers := peers + {address};
    }

    /** `validate_peer_chain(peer_chain)`: first rebuilds every dictionary and
        compares its declared hash, then checks the links of the rebuilt
        chain. */
    method ValidatePeerChain(peerChain: seq<BlockDict>) returns (valid: bool)
      ensures valid == PeerChainValid(ledger.hasher, peerChain)
    {
      var hasher := ledger.hasher;
      var temp: seq<Block> := [];
      for k := 0 to |peerChain|
        invariant temp == RebuildAll(hasher, peerChain[..k])
        invariant forall i :: 0 <= i < k ==> peerChain[i].hash == hasher(FromDictFields(peerChain[i]))
      {
        var block := FromDict(hasher, peerChain[k]);
        if block.hash != peerChain[k].hash {
          return false;
        }
        temp := temp + [block];
      }
      assert peerChain[..|peerChain|] == peerChain;
      var i := 1;
      while i < |temp|
        invariant 1 <= i
        invariant forall j :: 1 <= j < i && j < |temp| ==> temp[j].previousHash == temp[j - 1].hash
      {
        if temp[i].previousHash != temp[i - 1].hash {
          return false;
        }
        i := i + 1;
      }
      return true;
    }

    /** `resolve_conflicts()`, with the chain adopted through the rebuild of
        `validate_peer_chain` (see `AdoptAsWritten` for the code as written).
        `replies` are the peers' answers in the order the peers are visited. */
    method ResolveConflicts(replies: seq<PeerReply>) returns (replaced: bool)
      requires Valid()
      modifies ledger
      ensures Valid() && ledger.users == old(ledger.users) && peers == old(peers)
      ensures var selected := SelectPeerChain(ledger.hasher, |old(ledger.chain)|, replies);
        replaced == selected.Some? &&
        (replaced ==> ledger.chain == RebuildAll(ledger.hasher, selected.value)) &&
        (!replaced ==> ledger.chain == old(ledger.chain))
      ensures replaced ==> |ledger.chain| > |old(ledger.chain)| && ChainValid(ledger.hasher, ledger.chain)
    {
      var hasher := ledger.hasher;
      var longest: Option<seq<BlockDict>> := None;
      var maxLength := |ledger.chain|;
      for k := 0 to |replies|
        invariant SelectFrom(hasher, maxLength, longest, replies[k..]) == SelectPeerChain(hasher, |ledger.chain|, replies)
        invariant unchanged(ledger)
        invariant maxLength >= |ledger.chain|
        invariant longest.Some? ==> maxLength == |longest.value| > |ledger.chain|
        invariant longest.Some? ==> PeerChainValid(hasher, longest.value)
      {
        var reply := replies[k];
        assert replies[k..][0] == reply && replies[k..][1..] == replies[k + 1..];
        if reply.status == 200 {
          if |reply.chain| > maxLength {
            var valid := ValidatePeerChain(reply.chain);
            if valid {
              maxLength := |reply.chain|;
              longest := Some(reply.chain);
            }
          }
        }
      }
      assert replies[|replies|..] == [];
      if longest.Some? {
        ValidPeerChainIsValidChain(hasher, longest.value);
        ledger.chain := RebuildAll(hasher, longest.value);
        return true;
      }
      return false;
    }
  }
}
