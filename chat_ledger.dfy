/** The standalone chat ledger (chat-blockchain/chatblockchain.py): a chain
    of message blocks that only grows while it is valid, and a registry of
    usernames with password hashes. chat-http/chatblockchain.py repeats this
    class word for word and adds the peer members of `ChatPeers`. */
module ChatLedger {
  import opened Common
  import opened ChatBlocks

  /** SHA-256 of a password, as a hexadecimal digest. */
  type PasswordHasher = string -> Digest

  /** `users.get(username)` */
  function Lookup(users: map<string, Digest>, username: string): Option<Digest> {
    if username in users then Some(users[username]) else None
  }

  class Blockchain {
    var chain: seq<Block>
    var users: map<string, Digest>
    const hasher: Hasher
    const passwordHash: PasswordHasher

    /** The chain is never empty and every block in it was built by the
        `Block` constructor. */
    predicate Valid()
      reads this
    {
      |chain| >= 1 && AllSealed(hasher, chain)
    }

    /** `Blockchain()`: `saved` is the content of `blockchain.json` (empty when
        the file is missing) and `savedUsers` that of `users.json`. Saved
        blocks are rebuilt with recomputed hashes; an empty chain gets a
        genesis block stamped `now`. */
    constructor (hasher: Hasher, passwordHash: PasswordHasher, saved: seq<BlockDict>,
                 savedUsers: map<string, Digest>, now: string)
      ensures Valid()
      ensures this.hasher == hasher && this.passwordHash == passwordHash
      ensures chain == if saved == [] then [Genesis(hasher, now)] else RebuildAll(hasher, saved)
      ensures users == savedUsers
    {
      this.hasher := hasher;
      this.passwordHash := passwordHash;
      chain := RebuildAll(hasher, saved);
      users := savedUsers;
      new;
      if chain == [] {
        CreateGenesisBlock(now);
      }
    }

    /** `create_genesis_block()` */
    method CreateGenesisBlock(now: string)
      requires AllSealed(hasher, chain)
      modifies this
      ensures chain == old(chain) + [Genesis(hasher, now)]
      ensures AllSealed(hasher, chain) && users == old(users)
    {
      chain := chain + [Genesis(hasher, now)];
    }

    /** `is_chain_valid()` */
    method IsChainValid() returns (valid: bool)
      ensures valid == ChainValid(hasher, chain)
    {
      valid := ChatBlocks.IsChainValid(hasher, chain);
    }

    /** `add_block(data)`: appends the next block when the current chain is
        valid and raises ValueError, leaving the chain as it was, when not. */
    method AddBlock(data: Message, now: string) returns (r: Outcome<()>)
      requires Valid()
      modifies this
      ensures Valid() && users == old(users)
      ensures r.Ok? <==> ChainValid(hasher, old(chain))
      ensures r.Ok? ==> chain == old(chain) + [NextBlock(hasher, old(chain), now, data)]
      ensures r.Ok? ==> ChainValid(hasher, chain)
      ensures r.Ok? ==> GetChatHistory() == old(GetChatHistory()) + [data]
      ensures r.Raised? ==> r.exception == ValueError && chain == old(chain)
    {
      var newBlock := NextBlock(hasher, chain, now, data);
      var valid := IsChainValid();
      if valid {
        ExtendKeepsValid(hasher, chain, newBlock);
        PayloadsAppend(chain[1..], newBlock);
        assert (chain + [newBlock])[1..] == chain[1..] + [newBlock];
        chain := chain + [newBlock];
        r := Ok(());
      } else {
        r := Raised(ValueError);
      }
    }

    /** `register_user(username, password)`: a taken username raises
        ValueError; otherwise exactly that username is added. */
    method RegisterUser(username: string, password: string) returns (r: Outcome<()>)
      modifies this
      ensures chain == old(chain)
      ensures r.Raised? <==> username in old(users)
      ensures r.Raised? ==> r.exception == ValueError && users == old(users)
      ensures r.Ok? ==> users == old(users)[username := passwordHash(password)]
      ensures r.Ok? ==> AuthenticateUser(username, password)
    {
      if username in users {
        return Raised(ValueError);
      }
      users := users[username := passwordHash(password)];
      r := Ok(());
    }

    /** `authenticate_user(username, password)`: the username is registered
        and its stored hash is the hash of the password. */
    function AuthenticateUser(username: string, password: string): (ok: bool)
      reads this
      ensures ok <==> username in users && users[username] == passwordHash(password)
    {
      Lookup(users, username) == Some(passwordHash(password))
    }

    /** `get_chat_history()` */
    function GetChatHistory(): (history: seq<Message>)
      reads this
      ensures |history| == if chain == [] then 0 else |chain| - 1
      ensures forall i :: 0 <= i < |history| ==> history[i] == chain[i + 1].data
    {
      if chain == [] then [] else Payloads(chain[1..])
    }
  }
}
