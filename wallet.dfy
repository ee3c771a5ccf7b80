/** The deposit/withdraw wallet ledger (wallet-blockchain/app.py): blocks
    drain a pool of pending transactions, balances are a fold over the chain,
    proof-of-work chains each block's proof to the previous one, and the
    longest valid peer chain replaces the local one. */
module Wallet {
  import opened Common

  /** One `{'user_id', 'amount', 'type', 'timestamp'}` transaction. */
  datatype Tx = Tx(userId: int, amount: int, kind: string, timestamp: string)

  /** A block dictionary as `create_block` leaves it, `'hash'` included. */
  datatype Block = Block(index: int, timestamp: string, transactions: seq<Tx>, proof: int,
                         previousHash: Digest, hash: Digest)

  /** What `json.dumps(block, sort_keys=True)` sees: every key of the
      dictionary, `'hash'` only once it has been added. */
  datatype BlockRecord = BlockRecord(index: int, timestamp: string, transactions: seq<Tx>, proof: int,
                                     previousHash: Digest, hash: Option<Digest>)

  /** JSON serialisation of a block dictionary followed by SHA-256. */
  type BlockHasher = BlockRecord -> Digest

  /** SHA-256 of an encoded string. */
  type Sha = string -> Digest

  /** `Blockchain.hash(block)` on a stored block: the dictionary hashed with
      its own `'hash'` key, as `mine_block` and `valid_chain` call it. */
  function HashBlock(blockHasher: BlockHasher, block: Block): Digest {
    blockHasher(BlockRecord(block.index, block.timestamp, block.transactions, block.proof,
                            block.previousHash, Some(block.hash)))
  }

  function DecimalDigits(n: nat): string
    decreases n
  {
    (if n < 10 then "" else DecimalDigits(n / 10)) + [('0' as int + n % 10) as char]
  }

  /** Python's `str` of an integer. */
  function IntToString(i: int): string {
    if i < 0 then "-" + DecimalDigits(-i) else DecimalDigits(i)
  }

  /** `valid_proof(last_proof, proof)`: the digest of `f'{last_proof}{proof}'`
      starts with four zeros. */
  predicate ValidProof(sha: Sha, lastProof: int, proof: int) {
    StartsWithZeros(sha(IntToString(lastProof) + IntToString(proof)), 4)
  }

  /** The links `valid_chain` checks: each block names the hash of the whole
      previous dictionary and carries a proof valid against the previous one.
      The stored `'hash'` of a block is never recomputed. */
  predicate LinksValid(blockHasher: BlockHasher, sha: Sha, chain: seq<Block>) {
    forall i :: 1 <= i < |chain| ==>
      chain[i].previousHash == HashBlock(blockHasher, chain[i - 1]) &&
      ValidProof(sha, chain[i - 1].proof, chain[i].proof)
  }

  /** One iteration of `process_transactions`: `'add'` credits, `'withdraw'`
      debits (with no overdraft check), any other type is ignored. */
  function ApplyTx(balances: map<int, int>, tx: Tx): map<int, int> {
    if tx.kind == "add" then balances[tx.userId := Get(balances, tx.userId) + tx.amount]
    else if tx.kind == "withdraw" then balances[tx.userId := Get(balances, tx.userId) - tx.amount]
    else balances
  }

  /** `process_transactions(txs)` as a left fold. */
  function ProcessAll(balances: map<int, int>, txs: seq<Tx>): map<int, int>
    decreases |txs|
  {
    if txs == [] then balances
    else ApplyTx(ProcessAll(balances, txs[..|txs| - 1]), txs[|txs| - 1])
  }

  /** The balances obtained by processing every block of `chain` in order. */
  function ReplayChain(balances: map<int, int>, chain: seq<Block>): map<int, int>
    decreases |chain|
  {
    if chain == [] then balances
    else ProcessAll(ReplayChain(balances, chain[..|chain| - 1]), chain[|chain| - 1].transactions)
  }

  /** The sum of the amounts of the transactions of `kind` for `userId`. */
  function PendingSum(txs: seq<Tx>, userId: int, kind: string): int
    decreases |txs|
  {
    if txs == [] then 0
    else
      var tx := txs[|txs| - 1];
      PendingSum(txs[..|txs| - 1], userId, kind) + (if tx.userId == userId && tx.kind == kind then tx.amount else 0)
  }

  /** The available balance of `withdraw_funds`: confirmed balance plus
      pending deposits minus pending withdrawals. */
  function Available(balances: map<int, int>, pending: seq<Tx>, userId: int): int {
    Get(balances, userId) + PendingSum(pending, userId, "add") - PendingSum(pending, userId, "withdraw")
  }

  /** The effect of `process_transactions` on one user: every `'add'` for that
      user raises the balance by its amount, every `'withdraw'` lowers it, and
      nothing else touches it. In particular a user with no transactions keeps
      its balance, and the available balance of `withdraw_funds` is exactly the
      balance the user will have once the pending pool is mined. */
  lemma {:induction false} ProcessAllEffect(balances: map<int, int>, txs: seq<Tx>, userId: int)
    ensures Get(ProcessAll(balances, txs), userId) == Available(balances, txs, userId)
    decreases |txs|
  {
    if txs != [] {
      ProcessAllEffect(balances, txs[..|txs| - 1], userId);
    }
  }

  /** There is no non-negativity check: a withdrawal from an empty balance
      leaves it negative. */
  lemma NoOverdraftCheck(t: string)
    ensures Get(ProcessAll(map[], [Tx(1, 5, "withdraw", t)]), 1) == -5
  {
    assert [Tx(1, 5, "withdraw", t)][..0] == [];
  }

  lemma ProcessAllSnoc(balances: map<int, int>, txs: seq<Tx>, tx: Tx)
    ensures ProcessAll(balances, txs + [tx]) == ApplyTx(ProcessAll(balances, txs), tx)
  {
    assert (txs + [tx])[..|txs|] == txs;
  }

  /** The deposits of wallet-blockchain/test.py, processed from no balances. */
  lemma ScenarioDeposits(t: string)
    ensures ProcessAll(map[], [Tx(1, 100, "add", t), Tx(2, 200, "add", t), Tx(3, 300, "add", t)])
            == map[1 := 100, 2 := 200, 3 := 300]
  {
    var a1, a2, a3 := Tx(1, 100, "add", t), Tx(2, 200, "add", t), Tx(3, 300, "add", t);
    var empty: map<int, int> := map[];
    ProcessAllSnoc(empty, [], a1);
    ProcessAllSnoc(empty, [a1], a2);
    ProcessAllSnoc(empty, [a1, a2], a3);
    assert [] + [a1] == [a1] && [a1] + [a2] == [a1, a2] && [a1, a2] + [a3] == [a1, a2, a3];
    assert ProcessAll(empty, [a1]) == map[1 := 100];
    assert ProcessAll(empty, [a1, a2]) == map[1 := 100, 2 := 200];
  }

  /** The withdrawals of wallet-blockchain/test.py, processed after the deposits. */
  lemma ScenarioWithdrawals(t: string)
    ensures ProcessAll(map[1 := 100, 2 := 200, 3 := 300],
                       [Tx(1, 50, "withdraw", t), Tx(2, 100, "withdraw", t), Tx(3, 150, "withdraw", t)])
            == map[1 := 50, 2 := 100, 3 := 150]
  {
    var w1, w2, w3 := Tx(1, 50, "withdraw", t), Tx(2, 100, "withdraw", t), Tx(3, 150, "withdraw", t);
    var m: map<int, int> := map[1 := 100, 2 := 200, 3 := 300];
    ProcessAllSnoc(m, [], w1);
    ProcessAllSnoc(m, [w1], w2);
    ProcessAllSnoc(m, [w1, w2], w3);
    assert [] + [w1] == [w1] && [w1] + [w2] == [w1, w2] && [w1, w2] + [w3] == [w1, w2, w3];
    assert ProcessAll(m, [w1]) == map[1 := 50, 2 := 200, 3 := 300];
    assert ProcessAll(m, [w1, w2]) == map[1 := 50, 2 := 100, 3 := 300];
  }

  /** The scenario of wallet-blockchain/test.py: users 1, 2, 3 deposit
      100/200/300, a block is mined, each withdrawal of 50/100/150 passes the
      available-balance check, another block is mined, and the balances
      replayed from the three-block chain are 50/100/150. */
  lemma DepositWithdrawScenario(genesis: Block, first: Block, second: Block, t: string)
    requires genesis.transactions == []
    requires first.transactions == [Tx(1, 100, "add", t), Tx(2, 200, "add", t), Tx(3, 300, "add", t)]
    requires second.transactions == [Tx(1, 50, "withdraw", t), Tx(2, 100, "withdraw", t), Tx(3, 150, "withdraw", t)]
    ensures var afterDeposits := ReplayChain(map[], [genesis, first]);
      Available(afterDeposits, [], 1) >= 50 &&
      Available(afterDeposits, second.transactions[..1], 2) >= 100 &&
      Available(afterDeposits, second.transactions[..2], 3) >= 150
    ensures ReplayChain(map[], [genesis, first, second]) == map[1 := 50, 2 := 100, 3 := 150]
  {
    var empty: map<int, int> := map[];
    var afterDeposits := map[1 := 100, 2 := 200, 3 := 300];
    assert [genesis][..0] == [] && [genesis, first][..1] == [genesis];
    assert [genesis, first, second][..2] == [genesis, first];
    assert ReplayChain(empty, [genesis]) == empty;
    ScenarioDeposits(t);
    assert ReplayChain(empty, [genesis, first]) == afterDeposits;
    ScenarioWithdrawals(t);
    ProcessAllEffect(afterDeposits, second.transactions[..1], 2);
    ProcessAllEffect(afterDeposits, second.transactions[..2], 3);
    ScenarioPartialWithdrawals(t, second.transactions);
  }

  lemma ScenarioPartialWithdrawals(t: string, w: seq<Tx>)
    requires w == [Tx(1, 50, "withdraw", t), Tx(2, 100, "withdraw", t), Tx(3, 150, "withdraw", t)]
    ensures Get(ProcessAll(map[1 := 100, 2 := 200, 3 := 300], w[..1]), 2) == 200
    ensures Get(ProcessAll(map[1 := 100, 2 := 200, 3 := 300], w[..2]), 3) == 300
  {
    var m: map<int, int> := map[1 := 100, 2 := 200, 3 := 300];
    ProcessAllSnoc(m, [], w[0]);
    ProcessAllSnoc(m, [w[0]], w[1]);
    assert w[..1] == [] + [w[0]] && w[..2] == [w[0]] + [w[1]];
  }

  /** A peer's answer to `GET /chain`: status code, declared `'length'` and
      `'chain'`. */
  datatype ChainReply = ChainReply(status: int, length: int, chain: seq<Block>)

  /** The selection loop of `resolve_conflicts`: a reply is taken when its
      status is 200, its DECLARED length exceeds the best so far and
      `valid_chain` accepts its chain; `valid_chain` raises `IndexError` on an
      empty chain, which aborts the whole resolution. */
  function SelectChain(blockHasher: BlockHasher, sha: Sha, maxLength: int, best: Option<seq<Block>>,
                       replies: seq<ChainReply>): Outcome<Option<seq<Block>>>
    decreases |replies|
  {
    if replies == [] then Ok(best)
    else
      var reply := replies[0];
      if reply.status == 200 && reply.length > maxLength then
        if reply.chain == [] then Raised(IndexError)
        else if LinksValid(blockHasher, sha, reply.chain) then
          SelectChain(blockHasher, sha, reply.length, Some(reply.chain), replies[1..])
        else SelectChain(blockHasher, sha, maxLength, best, replies[1..])
      else SelectChain(blockHasher, sha, maxLength, best, replies[1..])
  }

  /** Consensus monotonicity, as far as the declared lengths go: a selected
      chain is the non-empty chain of some reply with status 200, a declared
      length above the starting maximum, and links that `valid_chain` accepts. */
  lemma {:induction false} SelectedChainQualifies(blockHasher: BlockHasher, sha: Sha, maxLength: int,
                                                  best: Option<seq<Block>>, replies: seq<ChainReply>, chosen: seq<Block>)
    requires SelectChain(blockHasher, sha, maxLength, best, replies) == Ok(Some(chosen))
    ensures best == Some(chosen) ||
            exists j :: 0 <= j < |replies| && replies[j].status == 200 && replies[j].length > maxLength &&
                        replies[j].chain == chosen && chosen != [] && LinksValid(blockHasher, sha, chosen)
    decreases |replies|
  {
    if replies != [] {
      var reply := replies[0];
      if reply.status == 200 && reply.length > maxLength && reply.chain != [] && LinksValid(blockHasher, sha, reply.chain) {
        SelectedChainQualifies(blockHasher, sha, reply.length, Some(reply.chain), replies[1..], chosen);
        if Some(reply.chain) == Some(chosen) {
          assert replies[0].chain == chosen;
        } else {
          var j :| 0 <= j < |replies[1..]| && replies[1..][j].status == 200 && replies[1..][j].length > reply.length &&
                   replies[1..][j].chain == chosen && chosen != [] && LinksValid(blockHasher, sha, chosen);
          assert replies[j + 1] == replies[1..][j];
        }
      } else {
        SelectedChainQualifies(blockHasher, sha, maxLength, best, replies[1..], chosen);
        if best != Some(chosen) {
          var j :| 0 <= j < |replies[1..]| && replies[1..][j].status == 200 && replies[1..][j].length > maxLength &&
                   replies[1..][j].chain == chosen && chosen != [] && LinksValid(blockHasher, sha, chosen);
          assert replies[j + 1] == replies[1..][j];
        }
      }
    }
  }

  /** Once a chain has been chosen the selection never falls back to "no
      chain": it ends with a chain or raises. */
  lemma {:induction false} SelectionKeepsAChain(blockHasher: BlockHasher, sha: Sha, maxLength: int,
                                                chosen: seq<Block>, replies: seq<ChainReply>)
    ensures SelectChain(blockHasher, sha, maxLength, Some(chosen), replies) != Ok(None)
    decreases |replies|
  {
    if replies != [] {
      var reply := replies[0];
      if reply.status == 200 && reply.length > maxLength && reply.chain != [] && LinksValid(blockHasher, sha, reply.chain) {
        SelectionKeepsAChain(blockHasher, sha, reply.length, reply.chain, replies[1..]);
      } else if !(reply.status == 200 && reply.length > maxLength) || reply.chain != [] {
        SelectionKeepsAChain(blockHasher, sha, maxLength, chosen, replies[1..]);
      }
    }
  }

  /** Conversely, a reply that answers 200, declares a length above the bar
      and sends a chain that is empty or whose links check out keeps the
      resolution from ending with "no chain": a chain is adopted, or the
      empty chain raises. */
  lemma {:induction false} QualifyingReplyAdopts(blockHasher: BlockHasher, sha: Sha, maxLength: int,
                                                 best: Option<seq<Block>>, replies: seq<ChainReply>, j: nat)
    requires j < |replies| && replies[j].status == 200 && replies[j].length > maxLength
    requires replies[j].chain == [] || LinksValid(blockHasher, sha, replies[j].chain)
    ensures SelectChain(blockHasher, sha, maxLength, best, replies) != Ok(None)
    decreases |replies|
  {
    var reply := replies[0];
    if reply.status == 200 && reply.length > maxLength && reply.chain != [] && LinksValid(blockHasher, sha, reply.chain) {
      SelectionKeepsAChain(blockHasher, sha, reply.length, reply.chain, replies[1..]);
    } else if !(reply.status == 200 && reply.length > maxLength) || reply.chain != [] {
      assert j != 0;
      assert replies[1..][j - 1] == replies[j];
      QualifyingReplyAdopts(blockHasher, sha, maxLength, best, replies[1..], j - 1);
    }
  }

  /** The declared length is trusted: a node holding three blocks adopts a
      one-block chain whose peer claims a length of ten. */
  lemma DeclaredLengthTrusted(blockHasher: BlockHasher, sha: Sha, lone: Block)
    ensures SelectChain(blockHasher, sha, 3, None, [ChainReply(200, 10, [lone])]) == Ok(Some([lone]))
  {
    assert [ChainReply(200, 10, [lone])][1..] == [];
  }

  /** A peer that declares a long length but sends an empty chain makes
      `valid_chain` raise, which aborts the resolution. */
  lemma EmptyPeerChainRaises(blockHasher: BlockHasher, sha: Sha, maxLength: int, best: Option<seq<Block>>,
                             reply: ChainReply, rest: seq<ChainReply>)
    requires reply.status == 200 && reply.length > maxLength && reply.chain == []
    ensures SelectChain(blockHasher, sha, maxLength, best, [reply] + rest) == Raised(IndexError)
  {
  }

  class Blockchain {
    var chain: seq<Block>
    var pendingTransactions: seq<Tx>
    var balances: map<int, int>
    var nodes: set<string>
    const blockHasher: BlockHasher
    const sha: Sha

    /** The chain is never empty and the balances are the fold of every
        block's transactions from an empty table. */
    ghost predicate Valid()
      reads this
    {
      |chain| >= 1 && balances == ReplayChain(map[], chain)
    }

    function Head(): Block
      reads this
      requires Valid()
    {
      chain[|chain| - 1]
    }

    /** `Blockchain()`: empty pool, no nodes, and the genesis block created
        with proof 1 and previous hash "0". */
    constructor (blockHasher: BlockHasher, sha: Sha, timestamp: string)
      ensures Valid() && this.blockHasher == blockHasher && this.sha == sha
      ensures pendingTransactions == [] && nodes == {} && balances == map[]
      ensures chain == [Block(1, timestamp, [], 1, "0", blockHasher(BlockRecord(1, timestamp, [], 1, "0", None)))]
    {
      this.blockHasher := blockHasher;
      this.sha := sha;
      chain := [];
      pendingTransactions := [];
      balances := map[];
      nodes := {};
      new;
      var _ := CreateBlock(1, "0", timestamp);
    }

    /** `create_block(proof, previous_hash)`: appends one block holding the
        whole pending pool, empties the pool and processes the block. */
    method CreateBlock(proof: int, previousHash: Digest, timestamp: string) returns (block: Block)
      modifies this
      ensures block.index == |old(chain)| + 1 && block.timestamp == timestamp && block.proof == proof
      ensures block.transactions == old(pendingTransactions) && block.previousHash == previousHash
      ensures block.hash == blockHasher(BlockRecord(block.index, timestamp, block.transactions, proof, previousHash, None))
      ensures chain == old(chain) + [block]
      ensures pendingTransactions == [] && nodes == old(nodes)
      ensures balances == ProcessAll(old(balances), old(pendingTransactions))
      ensures old(balances == ReplayChain(map[], chain)) ==> Valid()
    {
      var txs := pendingTransactions;
      var index := |chain| + 1;
      block := Block(index, timestamp, txs, proof, previousHash,
                     blockHasher(BlockRecord(index, timestamp, txs, proof, previousHash, None)));
      pendingTransactions := [];
      chain := chain + [block];
      ProcessTransactions(block.transactions);
      assert chain[..|chain| - 1] == old(chain);
    }

    /** `process_transactions(transactions)` */
    method ProcessTransactions(txs: seq<Tx>)
      modifies this`balances
      ensures balances == ProcessAll(old(balances), txs)
    {
      for i := 0 to |txs|
        invariant balances == ProcessAll(old(balances), txs[..i])
      {
        assert txs[..i + 1][..i] == txs[..i];
        var tx := txs[i];
        var userId := tx.userId;
        var amount := tx.amount;
        if tx.kind == "add" {
          balances := balances[userId := Get(balances, userId) + amount];
        } else if tx.kind == "withdraw" {
          balances := balances[userId := Get(balances, userId) - amount];
        }
      }
      assert txs[..|txs|] == txs;
    }

    /** `add_transaction(user_id, amount, tx_type)` */
    method AddTransaction(userId: int, amount: int, kind: string, timestamp: string)
      modifies this`pendingTransactions
      ensures pendingTransactions == old(pendingTransactions) + [Tx(userId, amount, kind, timestamp)]
    {
      pendingTransactions := pendingTransactions + [Tx(userId, amount, kind, timestamp)];
    }

    /** `proof_of_work(last_proof)`: the least non-negative proof valid
        against `last_proof`. The loop ends only if one exists. */
    method ProofOfWork(lastProof: int) returns (proof: int)
      requires exists p :: p >= 0 && ValidProof(sha, lastProof, p)
      ensures proof >= 0 && ValidProof(sha, lastProof, proof)
      ensures forall q :: 0 <= q < proof ==> !ValidProof(sha, lastProof, q)
    {
      ghost var bound :| bound >= 0 && ValidProof(sha, lastProof, bound);
      proof := 0;
      while !ValidProof(sha, lastProof, proof)
        invariant 0 <= proof <= bound
        invariant forall q :: 0 <= q < proof ==> !ValidProof(sha, lastProof, q)
        decreases bound - proof
      {
        proof := proof + 1;
      }
    }

    /** `valid_chain(chain)`: raises `IndexError` on an empty chain (it reads
        `chain[0]`), otherwise checks every link. */
    method ValidChain(candidate: seq<Block>) returns (result: Outcome<bool>)
      ensures candidate == [] ==> result == Raised(IndexError)
      ensures candidate != [] ==> result == Ok(LinksValid(blockHasher, sha, candidate))
    {
      if |candidate| == 0 {
        return Raised(IndexError);
      }
      var previous := candidate[0];
      var i := 1;
      while i < |candidate|
        invariant 1 <= i <= |candidate| && previous == candidate[i - 1]
        invariant forall j :: 1 <= j < i ==>
          candidate[j].previousHash == HashBlock(blockHasher, candidate[j - 1]) &&
          ValidProof(sha, candidate[j - 1].proof, candidate[j].proof)
      {
        var block := candidate[i];
        if block.previousHash != HashBlock(blockHasher, previous) {
          return Ok(false);
        }
        if !ValidProof(sha, previous.proof, block.proof) {
          return Ok(false);
        }
        previous := block;
        i := i + 1;
      }
      return Ok(true);
    }

    /** `resolve_conflicts()`, the peers' answers given in iteration order:
        adopts the selected chain and rebuilds the balances from scratch;
        nothing changes when no chain is selected or `valid_chain` raises. */
    method ResolveConflicts(replies: seq<ChainReply>) returns (outcome: Outcome<bool>)
      requires Valid()
      modifies this
      ensures Valid()
      ensures pendingTransactions == old(pendingTransactions) && nodes == old(nodes)
      ensures var selected := SelectChain(blockHasher, sha, |old(chain)|, None, replies);
        (selected.Raised? ==> outcome == Raised(IndexError) && chain == old(chain) && balances == old(balances)) &&
        (selected == Ok(None) ==> outcome == Ok(false) && chain == old(chain) && balances == old(balances)) &&
        (selected.Ok? && selected.value.Some? ==> outcome == Ok(true) && chain == selected.value.value)
    {
      var longest: Option<seq<Block>> := None;
      var maxLength := |chain|;
      for i := 0 to |replies|
        invariant chain == old(chain) && balances == old(balances)
        invariant pendingTransactions == old(pendingTransactions) && nodes == old(nodes)
        invariant SelectChain(blockHasher, sha, |chain|, None, replies)
                  == SelectChain(blockHasher, sha, maxLength, longest, replies[i..])
        invariant longest.Some? ==> longest.value != []
      {
        var reply := replies[i];
        assert replies[i..][0] == reply && replies[i..][1..] == replies[i + 1..];
        if reply.status == 200 && reply.length > maxLength {
          var valid := ValidChain(reply.chain);
          if valid.Raised? {
            return Raised(IndexError);
          }
          if valid.value {
            maxLength := reply.length;
            longest := Some(reply.chain);
          }
        }
      }
      assert replies[|replies|..] == [];
      if longest.Some? {
        chain := longest.value;
        balances := map[];
        for i := 0 to |chain|
          invariant chain == longest.value
          invariant pendingTransactions == old(pendingTransactions) && nodes == old(nodes)
          invariant balances == ReplayChain(map[], chain[..i])
        {
          assert chain[..i + 1][..i] == chain[..i];
          ProcessTransactions(chain[i].transactions);
        }
        assert chain[..|chain|] == chain;
        return Ok(true);
      }
      return Ok(false);
    }
  }

  /** The Flask application's state: the node's blockchain, the `users`
      dictionary (whose values are determined by their keys) and the
      `current_user_id` counter. */
  class WalletApp {
    const ledger: Blockchain
    var users: set<int>
    var currentUserId: int

    ghost predicate Valid()
      reads this, ledger
    {
      ledger.Valid()
    }

    constructor (blockHasher: BlockHasher, sha: Sha, timestamp: string)
      ensures Valid() && fresh(ledger) && users == {} && currentUserId == 0
      ensures ledger.blockHasher == blockHasher && ledger.sha == sha
      ensures ledger.pendingTransactions == [] && ledger.nodes == {} && ledger.balances == map[]
      ensures ledger.chain == [Block(1, timestamp, [], 1, "0", blockHasher(BlockRecord(1, timestamp, [], 1, "0", None)))]
    {
      ledger := new Blockchain(blockHasher, sha, timestamp);
      users := {};
      currentUserId := 0;
    }

    /** `POST /users`: the next identifier is registered and returned. */
    method RegisterUser() returns (userId: int)
      modifies this
      ensures userId == old(currentUserId) + 1 && currentUserId == userId
      ensures users == old(users) + {userId}
    {
      currentUserId := currentUserId + 1;
      userId := currentUserId;
      users := users + {userId};
    }

    /** `POST /transactions/add`: queued only for a registered user and a
        positive amount. */
    method AddFunds(userId: int, amount: int, timestamp: string) returns (accepted: bool)
      requires Valid()
      modifies ledger
      ensures Valid()
      ensures accepted == (userId in users && amount > 0)
      ensures ledger.pendingTransactions == if accepted
        then old(ledger.pendingTransactions) + [Tx(userId, amount, "add", timestamp)]
        else old(ledger.pendingTransactions)
      ensures ledger.chain == old(ledger.chain) && ledger.balances == old(ledger.balances)
      ensures ledger.nodes == old(ledger.nodes)
    {
      if userId !in users || amount <= 0 {
        return false;
      }
      ledger.AddTransaction(userId, amount, "add", timestamp);
      return true;
    }

    /** `POST /transactions/withdraw`: queued only for a registered user, a
        positive amount and an available balance (confirmed plus pending
        deposits minus pending withdrawals) that covers it. An accepted
        withdrawal leaves the user's balance after the next mine non-negative. */
    method WithdrawFunds(userId: int, amount: int, timestamp: string) returns (accepted: bool)
      requires Valid()
      modifies ledger
      ensures Valid()
      ensures accepted == (userId in users && amount > 0 &&
                           Available(old(ledger.balances), old(ledger.pendingTransactions), userId) >= amount)
      ensures ledger.pendingTransactions == if accepted
        then old(ledger.pendingTransactions) + [Tx(userId, amount, "withdraw", timestamp)]
        else old(ledger.pendingTransactions)
      ensures accepted ==> Get(ProcessAll(ledger.balances, ledger.pendingTransactions), userId) >= 0
      ensures ledger.chain == old(ledger.chain) && ledger.balances == old(ledger.balances)
      ensures ledger.nodes == old(ledger.nodes)
    {
      if userId !in users || amount <= 0 {
        return false;
      }
      var confirmedBalance := Get(ledger.balances, userId);
      var pendingAdds := PendingSum(ledger.pendingTransactions, userId, "add");
      var pendingWithdrawals := PendingSum(ledger.pendingTransactions, userId, "withdraw");
      var availableBalance := confirmedBalance + pendingAdds - pendingWithdrawals;
      if availableBalance < amount {
        return false;
      }
      ledger.AddTransaction(userId, amount, "withdraw", timestamp);
      var pending := ledger.pendingTransactions;
      assert pending[..|pending| - 1] == old(ledger.pendingTransactions);
      ProcessAllEffect(ledger.balances, pending, userId);
      return true;
    }

    /** `POST /mine`: finds the least proof valid against the head's proof,
        links the new block to the hash of the whole head dictionary and
        creates it. The proof search ends only if such a proof exists. */
    method Mine(timestamp: string) returns (block: Block)
      requires Valid()
      requires exists p :: p >= 0 && ValidProof(ledger.sha, ledger.Head().proof, p)
      modifies ledger
      ensures Valid()
      ensures ledger.chain == old(ledger.chain) + [block]
      ensures block.index == |old(ledger.chain)| + 1 && block.timestamp == timestamp
      ensures block.transactions == old(ledger.pendingTransactions)
      ensures block.previousHash == HashBlock(ledger.blockHasher, old(ledger.Head()))
      ensures block.proof >= 0 && ValidProof(ledger.sha, old(ledger.Head()).proof, block.proof)
      ensures forall q :: 0 <= q < block.proof ==> !ValidProof(ledger.sha, old(ledger.Head()).proof, q)
      ensures ledger.pendingTransactions == [] && ledger.nodes == old(ledger.nodes)
      ensures ledger.balances == ProcessAll(old(ledger.balances), old(ledger.pendingTransactions))
      ensures old(LinksValid(ledger.blockHasher, ledger.sha, ledger.chain)) ==>
                LinksValid(ledger.blockHasher, ledger.sha, ledger.chain)
    {
      var lastBlock := ledger.chain[|ledger.chain| - 1];
      var lastProof := lastBlock.proof;
      var proof := ledger.ProofOfWork(lastProof);
      var previousHash := HashBlock(ledger.blockHasher, lastBlock);
      block := ledger.CreateBlock(proof, previousHash, timestamp);
    }

    /** `POST /nodes/register`: an empty or missing list is refused; otherwise
        every address joins the node set. */
    method RegisterNodes(addresses: seq<string>) returns (accepted: bool)
      requires Valid()
      modifies ledger
      ensures Valid()
      ensures accepted == (|addresses| > 0)
      ensures ledger.nodes == if accepted then old(ledger.nodes) + (set a | a in addresses) else old(ledger.nodes)
      ensures ledger.chain == old(ledger.chain) && ledger.balances == old(ledger.balances)
      ensures ledger.pendingTransactions == old(ledger.pendingTransactions)
    {
      if |addresses| == 0 {
        return false;
      }
      for i := 0 to |addresses|
        invariant forall a :: a in ledger.nodes <==> a in old(ledger.nodes) || a in addresses[..i]
        invariant ledger.chain == old(ledger.chain) && ledger.balances == old(ledger.balances)
        invariant ledger.pendingTransactions == old(ledger.pendingTransactions)
      {
        assert addresses[..i + 1] == addresses[..i] + [addresses[i]];
        ledger.nodes := ledger.nodes + {addresses[i]};
      }
      assert addresses[..|addresses|] == addresses;
      return true;
    }
  }
}
