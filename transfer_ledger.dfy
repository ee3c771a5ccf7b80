/** The transfer ledger with proof-of-work (first-blockchain/blockchain.py):
    blocks sealed by a nonce search, appended only when their batch of
    transfers is valid against a simulated copy of the balances. */
module TransferLedger {
  import opened Common

  /** One `{'sender', 'receiver', 'amount'}` transaction. */
  datatype Transfer = Transfer(sender: string, receiver: string, amount: int)

  /** The `data` of a block: the genesis text or a batch of transfers. */
  datatype Payload = Note(text: string) | Transfers(transfers: seq<Transfer>)

  /** The fields `calculate_hash` serialises, in sorted-key JSON. */
  datatype Header = Header(index: int, previousHash: Digest, data: Payload, timestamp: int, nonce: int)

  /** JSON serialisation followed by SHA-256; never interpreted. */
  type Hasher = Header -> Digest

  /** What `is_chain_valid` compares of a block: its fields and its stored hash. */
  datatype BlockView = BlockView(header: Header, hash: Digest)

  /** The header `hd` sealed with `nonce` meets the difficulty. */
  predicate SealsAt(hasher: Hasher, hd: Header, nonce: int, difficulty: nat) {
    StartsWithZeros(hasher(hd.(nonce := nonce)), difficulty)
  }

  class Block {
    var index: int
    var previousHash: Digest
    var data: Payload
    var timestamp: int
    var nonce: int
    var hash: Digest

    function Fields(): Header
      reads this
    {
      Header(index, previousHash, data, timestamp, nonce)
    }

    function View(): BlockView
      reads this
    {
      BlockView(Fields(), hash)
    }

    /** `calculate_hash()` (its debug print is not modelled). */
    function CalculateHash(hasher: Hasher): Digest
      reads this
    {
      hasher(Fields())
    }

    /** `Block(index, previous_hash, data, timestamp, nonce)`: a fresh block
        carries the hash of its own fields. */
    constructor (hasher: Hasher, index: int, previousHash: Digest, data: Payload, timestamp: int, nonce: int)
      ensures Fields() == Header(index, previousHash, data, timestamp, nonce)
      ensures hash == hasher(Fields())
    {
      this.index := index;
      this.previousHash := previousHash;
      this.data := data;
      this.timestamp := timestamp;
      this.nonce := nonce;
      this.hash := hasher(Header(index, previousHash, data, timestamp, nonce));
    }

    /** `mine_block(difficulty)`: increments the nonce until the hash has
        `difficulty` leading zeros. The loop ends only if such a nonce
        exists at or above the current one, which the caller must supply. */
    method MineBlock(hasher: Hasher, difficulty: nat)
      requires hash == hasher(Fields())
      requires exists n :: n >= nonce && SealsAt(hasher, Fields(), n, difficulty)
      modifies this
      ensures hash == hasher(Fields()) && StartsWithZeros(hash, difficulty)
      ensures index == old(index) && previousHash == old(previousHash)
      ensures data == old(data) && timestamp == old(timestamp)
      ensures old(nonce) <= nonce
      ensures forall n :: old(nonce) <= n < nonce ==> !SealsAt(hasher, Fields(), n, difficulty)
    {
      ghost var base := Fields();
      ghost var bound :| bound >= nonce && SealsAt(hasher, base, bound, difficulty);
      while !StartsWithZeros(hash, difficulty)
        invariant Fields() == base.(nonce := nonce)
        invariant old(nonce) <= nonce <= bound
        invariant hash == hasher(Fields())
        invariant forall n :: old(nonce) <= n < nonce ==> !SealsAt(hasher, base, n, difficulty)
        decreases bound - nonce
      {
        nonce := nonce + 1;
        hash := CalculateHash(hasher);
      }
      forall n | old(nonce) <= n < nonce
        ensures !SealsAt(hasher, Fields(), n, difficulty)
      {
        assert !SealsAt(hasher, base, n, difficulty);
        assert Fields().(nonce := n) == base.(nonce := n);
      }
    }
  }

  /** The values of a sequence of block objects. */
  function Views(blocks: seq<Block>): seq<BlockView>
    reads blocks
  {
    seq(|blocks|, i requires 0 <= i < |blocks| reads blocks => blocks[i].View())
  }

  /** `is_chain_valid` on values: every block after the genesis block carries
      the hash of its own fields and links to its predecessor's hash. */
  predicate ChainValid(hasher: Hasher, chain: seq<BlockView>) {
    forall i :: 1 <= i < |chain| ==>
      chain[i].hash == hasher(chain[i].header) && chain[i].header.previousHash == chain[i - 1].hash
  }

  /** Moves one transfer's amount from sender to receiver (lines 68-69 and 74-75). */
  function Move(balances: map<string, int>, tx: Transfer): map<string, int> {
    var debited := balances[tx.sender := Get(balances, tx.sender) - tx.amount];
    debited[tx.receiver := Get(debited, tx.receiver) + tx.amount]
  }

  /** The simulated pass of `validate_transactions`: `None` when some transfer
      has a non-positive amount or exceeds its sender's running balance,
      otherwise the balances after every transfer. */
  function Simulate(balances: map<string, int>, txs: seq<Transfer>): Option<map<string, int>>
    decreases |txs|
  {
    if txs == [] then Some(balances)
    else if txs[0].amount <= 0 || Get(balances, txs[0].sender) < txs[0].amount then None
    else Simulate(Move(balances, txs[0]), txs[1..])
  }

  /** The sum of all balances. */
  ghost function Total(balances: map<string, int>): int
    decreases |balances.Keys|
  {
    if balances == map[] then 0
    else
      var k :| k in balances;
      balances[k] + Total(balances - {k})
  }

  lemma {:induction false} TotalRemove(balances: map<string, int>, k: string)
    requires k in balances
    ensures Total(balances) == balances[k] + Total(balances - {k})
    decreases |balances.Keys|
  {
    var j :| j in balances && Total(balances) == balances[j] + Total(balances - {j});
    if j != k {
      var rest := balances - {j} - {k};
      assert balances - {k} - {j} == rest;
      assert |(balances - {j}).Keys| < |balances.Keys| by {
        assert balances.Keys - {j} == (balances - {j}).Keys;
      }
      assert |(balances - {k}).Keys| < |balances.Keys| by {
        assert balances.Keys - {k} == (balances - {k}).Keys;
      }
      TotalRemove(balances - {j}, k);
      TotalRemove(balances - {k}, j);
    }
  }

  /** Writing `v` at key `k` changes the total by `v - balances.get(k, 0)`. */
  lemma TotalUpdate(balances: map<string, int>, k: string, v: int)
    ensures Total(balances[k := v]) == Total(balances) - Get(balances, k) + v
  {
    TotalRemove(balances[k := v], k);
    if k in balances {
      TotalRemove(balances, k);
      assert balances[k := v] - {k} == balances - {k};
    } else {
      assert balances[k := v] - {k} == balances;
    }
  }

  /** A transfer neither creates nor destroys value. */
  lemma MoveConserves(balances: map<string, int>, tx: Transfer)
    ensures Total(Move(balances, tx)) == Total(balances)
  {
    var debited := balances[tx.sender := Get(balances, tx.sender) - tx.amount];
    TotalUpdate(balances, tx.sender, Get(balances, tx.sender) - tx.amount);
    TotalUpdate(debited, tx.receiver, Get(debited, tx.receiver) + tx.amount);
  }

  /** Balance conservation: a batch that validates leaves the sum of all
      balances as it was. */
  lemma {:induction false} SimulateConserves(balances: map<string, int>, txs: seq<Transfer>)
    requires Simulate(balances, txs).Some?
    ensures Total(Simulate(balances, txs).value) == Total(balances)
    decreases |txs|
  {
    if txs != [] {
      MoveConserves(balances, txs[0]);
      SimulateConserves(Move(balances, txs[0]), txs[1..]);
    }
  }

  /** A batch that validates never drives a balance negative. */
  lemma {:induction false} SimulateKeepsNonNegative(balances: map<string, int>, txs: seq<Transfer>)
    requires forall k :: k in balances ==> balances[k] >= 0
    requires Simulate(balances, txs).Some?
    ensures forall k :: k in Simulate(balances, txs).value ==> Simulate(balances, txs).value[k] >= 0
    decreases |txs|
  {
    if txs != [] {
      SimulateKeepsNonNegative(Move(balances, txs[0]), txs[1..]);
    }
  }

  /** One transfer with a non-positive amount rejects the whole batch. */
  lemma {:induction false} NonPositiveAmountRejects(balances: map<string, int>, txs: seq<Transfer>, k: nat)
    requires k < |txs| && txs[k].amount <= 0
    ensures Simulate(balances, txs) == None
    decreases |txs|
  {
    if txs[0].amount > 0 && Get(balances, txs[0].sender) >= txs[0].amount {
      NonPositiveAmountRejects(Move(balances, txs[0]), txs[1..], k - 1);
    }
  }

  /** A block appended after a valid chain, sealed and linked to the old head,
      keeps the chain valid. */
  lemma ExtendKeepsValid(hasher: Hasher, chain: seq<BlockView>, block: BlockView)
    requires ChainValid(hasher, chain) && |chain| >= 1
    requires block.hash == hasher(block.header)
    requires block.header.previousHash == chain[|chain| - 1].hash
    ensures ChainValid(hasher, chain + [block])
  {
  }

  /** Tamper detection: rewriting the fields of a non-genesis block without
      resealing it is caught, whenever the new fields hash differently. */
  lemma TamperedFieldsDetected(hasher: Hasher, chain: seq<BlockView>, i: nat, forged: Header)
    requires ChainValid(hasher, chain) && 1 <= i < |chain|
    requires hasher(forged) != hasher(chain[i].header)
    ensures !ChainValid(hasher, chain[i := chain[i].(header := forged)])
  {
    assert chain[i := chain[i].(header := forged)][i].hash != hasher(forged);
  }

  /** Tamper detection with resealing: a forged block below the head that is
      given a fresh, different hash breaks its successor's link. */
  lemma ResealedTamperDetected(hasher: Hasher, chain: seq<BlockView>, i: nat, forged: Header)
    requires ChainValid(hasher, chain) && i + 1 < |chain|
    requires hasher(forged) != chain[i].hash
    ensures !ChainValid(hasher, chain[i := BlockView(forged, hasher(forged))])
  {
    var tampered := chain[i := BlockView(forged, hasher(forged))];
    assert tampered[i + 1].header.previousHash != tampered[i].hash;
  }

  /** The genesis block is never checked: rewriting its fields (keeping its
      stored hash) leaves a valid chain valid. */
  lemma GenesisNeverChecked(hasher: Hasher, chain: seq<BlockView>, forged: Header)
    requires ChainValid(hasher, chain) && |chain| >= 1
    ensures ChainValid(hasher, chain[0 := chain[0].(header := forged)])
  {
    var tampered := chain[0 := chain[0].(header := forged)];
    forall i | 1 <= i < |tampered|
      ensures tampered[i].hash == hasher(tampered[i].header)
      ensures tampered[i].header.previousHash == tampered[i - 1].hash
    {
    }
  }

  /** The balances every ledger starts from (lines 33-36). */
  const SeedBalances: map<string, int> := map["Alice" := 1000, "Bob" := 500]

  /** Replays the transfer batches of `blocks`, oldest first, through the
      validating pass; `None` when some batch would have been rejected. A
      block holding a note moves nothing. */
  function ReplayTransfers(balances: map<string, int>, blocks: seq<BlockView>): Option<map<string, int>>
    decreases |blocks|
  {
    if blocks == [] then Some(balances)
    else match ReplayTransfers(balances, blocks[..|blocks| - 1])
      case None => None
      case Some(before) =>
        match blocks[|blocks| - 1].header.data
        case Note(_) => Some(before)
        case Transfers(txs) => Simulate(before, txs)
  }

  /** Replaying a whole chain of accepted batches keeps the sum of all
      balances. */
  lemma {:induction false} ReplayConserves(balances: map<string, int>, blocks: seq<BlockView>)
    requires ReplayTransfers(balances, blocks).Some?
    ensures Total(ReplayTransfers(balances, blocks).value) == Total(balances)
    decreases |blocks|
  {
    if blocks != [] {
      var init := blocks[..|blocks| - 1];
      ReplayConserves(balances, init);
      var before := ReplayTransfers(balances, init).value;
      match blocks[|blocks| - 1].header.data
      case Note(_) =>
      case Transfers(txs) => SimulateConserves(before, txs);
    }
  }

  /** The scenario at the bottom of blockchain.py: from Alice=1000, Bob=500 the
      batch [Alice->Bob 100, Bob->Alice 50] validates and yields 950/550, and a
      later [Alice->Bob 2000] is rejected. */
  lemma DemoScenario()
    ensures Simulate(map["Alice" := 1000, "Bob" := 500],
                     [Transfer("Alice", "Bob", 100), Transfer("Bob", "Alice", 50)])
            == Some(map["Alice" := 950, "Bob" := 550])
    ensures Simulate(map["Alice" := 950, "Bob" := 550], [Transfer("Alice", "Bob", 2000)]) == None
  {
    var start := map["Alice" := 1000, "Bob" := 500];
    var t1, t2 := Transfer("Alice", "Bob", 100), Transfer("Bob", "Alice", 50);
    var mid := Move(start, t1);
    assert mid == map["Alice" := 900, "Bob" := 600];
    var end := Move(mid, t2);
    assert end == map["Alice" := 950, "Bob" := 550];
    assert [t1, t2][1..] == [t2];
    assert Simulate(mid, [t2]) == Simulate(end, []);
  }

  class Blockchain {
    var chain: seq<Block>
    var balances: map<string, int>
    const difficulty: nat := 4
    const hasher: Hasher

    ghost predicate Valid()
      reads this
    {
      |chain| >= 1
    }

    function Head(): Block
      reads this
      requires Valid()
    {
      chain[|chain| - 1]
    }

    /** The ledger invariant: the balances are the seed balances with every
        batch after the genesis block replayed in chain order. */
    ghost predicate BalancesReplayChain()
      reads this, chain
    {
      |chain| >= 1 && ReplayTransfers(SeedBalances, Views(chain)[1..]) == Some(balances)
    }

    /** The header of the block `add_block` is about to mine. */
    function NextHeader(txs: seq<Transfer>, timestamp: int): Header
      reads this, chain
      requires Valid()
    {
      Header(|chain|, Head().hash, Transfers(txs), timestamp, 0)
    }

    /** `Blockchain()`: seeded balances and a mined genesis block. */
    constructor (hasher: Hasher, timestamp: int)
      requires exists n :: n >= 0 && SealsAt(hasher, Header(0, "0", Note("Genesis Block"), timestamp, 0), n, 4)
      ensures Valid() && this.hasher == hasher
      ensures balances == map["Alice" := 1000, "Bob" := 500]
      ensures |chain| == 1 && fresh(chain[0])
      ensures chain[0].Fields().(nonce := 0) == Header(0, "0", Note("Genesis Block"), timestamp, 0)
      ensures chain[0].hash == hasher(chain[0].Fields()) && StartsWithZeros(chain[0].hash, 4)
      ensures ChainValid(hasher, Views(chain))
      ensures BalancesReplayChain()
    {
      this.hasher := hasher;
      chain := [];
      balances := SeedBalances;
      new;
      assert difficulty == 4;
      CreateGenesisBlock(timestamp);
      assert Views(chain)[1..] == [];
    }

    /** `create_genesis_block()` */
    method CreateGenesisBlock(timestamp: int)
      requires exists n :: n >= 0 && SealsAt(hasher, Header(0, "0", Note("Genesis Block"), timestamp, 0), n, difficulty)
      modifies this
      ensures balances == old(balances)
      ensures |chain| == |old(chain)| + 1 && chain[..|old(chain)|] == old(chain) && fresh(chain[|old(chain)|])
      ensures var genesis := chain[|old(chain)|];
        genesis.Fields().(nonce := 0) == Header(0, "0", Note("Genesis Block"), timestamp, 0) &&
        genesis.hash == hasher(genesis.Fields()) && StartsWithZeros(genesis.hash, difficulty)
    {
      var genesis := new Block(hasher, 0, "0", Note("Genesis Block"), timestamp, 0);
      genesis.MineBlock(hasher, difficulty);
      chain := chain + [genesis];
    }

    /** `validate_transactions(transactions)`: replays the batch on a copy of
        the balances; `self.balances` is only read. */
    method ValidateTransactions(txs: seq<Transfer>) returns (valid: bool)
      ensures valid == Simulate(balances, txs).Some?
    {
      var temp := balances;
      var i := 0;
      while i < |txs|
        invariant 0 <= i <= |txs|
        invariant Simulate(balances, txs) == Simulate(temp, txs[i..])
      {
        var tx := txs[i];
        assert txs[i..][0] == tx && txs[i..][1..] == txs[i + 1..];
        if tx.amount <= 0 {
          return false;
        }
        if Get(temp, tx.sender) < tx.amount {
          return false;
        }
        temp := temp[tx.sender := temp[tx.sender] - tx.amount];
        temp := temp[tx.receiver := Get(temp, tx.receiver) + tx.amount];
        i := i + 1;
      }
      return true;
    }

    /** `execute_transactions(transactions)`, called only after the batch
        validated: the real balances end as the simulation computed. */
    method ExecuteTransactions(txs: seq<Transfer>)
      requires Simulate(balances, txs).Some?
      modifies this`balances
      ensures balances == Simulate(old(balances), txs).value
    {
      for i := 0 to |txs|
        invariant Simulate(old(balances), txs) == Simulate(balances, txs[i..])
      {
        var tx := txs[i];
        assert txs[i..][0] == tx && txs[i..][1..] == txs[i + 1..];
        balances := balances[tx.sender := balances[tx.sender] - tx.amount];
        balances := balances[tx.receiver := Get(balances, tx.receiver) + tx.amount];
      }
      assert txs[|txs|..] == [];
    }

    /** `add_block(transactions)`: all-or-nothing. A batch that fails
        validation leaves chain and balances untouched; otherwise one mined
        block linked to the old head is appended and the batch is executed. */
    method AddBlock(txs: seq<Transfer>, timestamp: int) returns (added: bool)
      requires Valid()
      requires Simulate(balances, txs).Some? ==>
                 exists n :: n >= 0 && SealsAt(hasher, NextHeader(txs, timestamp), n, difficulty)
      modifies this
      ensures Valid()
      ensures added == Simulate(old(balances), txs).Some?
      ensures !added ==> chain == old(chain) && balances == old(balances)
      ensures added ==> balances == Simulate(old(balances), txs).value
      ensures added ==> |chain| == |old(chain)| + 1 && chain[..|old(chain)|] == old(chain) && fresh(Head())
      ensures added ==> Head().index == |old(chain)| && Head().previousHash == old(Head().hash)
      ensures added ==> Head().data == Transfers(txs) && Head().timestamp == timestamp
      ensures added ==> Head().hash == hasher(Head().Fields()) && StartsWithZeros(Head().hash, difficulty)
      ensures added ==> Views(chain) == old(Views(chain)) + [Head().View()]
      ensures old(ChainValid(hasher, Views(chain))) ==> ChainValid(hasher, Views(chain))
      ensures old(BalancesReplayChain()) ==> BalancesReplayChain()
    {
      var valid := ValidateTransactions(txs);
      if !valid {
        return false;
      }
      var lastBlock := chain[|chain| - 1];
      var newBlock := new Block(hasher, |chain|, lastBlock.hash, Transfers(txs), timestamp, 0);
      newBlock.MineBlock(hasher, difficulty);
      ExecuteTransactions(txs);
      chain := chain + [newBlock];
      assert Views(chain) == old(Views(chain)) + [newBlock.View()];
      if old(ChainValid(hasher, Views(chain))) {
        ExtendKeepsValid(hasher, old(Views(chain)), newBlock.View());
      }
      var blocks := Views(chain)[1..];
      assert blocks == old(Views(chain))[1..] + [newBlock.View()];
      assert blocks[..|blocks| - 1] == old(Views(chain))[1..];
      return true;
    }

    /** `is_chain_valid()`: the read-only early-return loop over the links. */
    method IsChainValid() returns (valid: bool)
      ensures valid == ChainValid(hasher, Views(chain))
    {
      var i := 1;
      while i < |chain|
        invariant 1 <= i
        invariant forall j :: 1 <= j < i && j < |chain| ==>
          chain[j].hash == hasher(chain[j].Fields()) && chain[j].previousHash == chain[j - 1].hash
      {
        var current := chain[i];
        var previous := chain[i - 1];
        assert Views(chain)[i] == current.View() && Views(chain)[i - 1] == previous.View();
        if current.hash != current.CalculateHash(hasher) {
          return false;
        }
        if current.previousHash != previous.hash {
          return false;
        }
        i := i + 1;
      }
      assert forall j :: 0 <= j < |chain| ==> Views(chain)[j] == chain[j].View();
      return true;
    }
  }
}
