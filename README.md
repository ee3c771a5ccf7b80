# Ledger engines of four small blockchain programs

This project models the ledger engines of four small Python blockchains in Dafny and proves properties of them. Each engine keeps a list of blocks linked by hashes, appends to it under a validity rule, and checks it. Some also keep balances, users or peers.

- `transfer_ledger.dfy` (module `TransferLedger`) covers `first-blockchain/blockchain.py`. Blocks hold batches of transfers and are sealed by a nonce search. `add_block` validates the batch on a copy of the balances and is all-or-nothing. `is_chain_valid` recomputes every hash.
- `wallet.dfy` (module `Wallet`) covers `wallet-blockchain/app.py`. The pieces are:
  - `create_block` drains the pending pool into the next block.
  - Balances are a fold of `'add'`/`'withdraw'` over the chain.
  - Proof of work chains each block's proof to the previous one.
  - `resolve_conflicts` adopts the longest valid peer chain and rebuilds the balances.
  - The routes `register_user`, `add_funds`, `withdraw_funds`, `mine_block` and `register_nodes` decide what gets queued.
- `chat_blocks.dfy` (module `ChatBlocks`) holds the message block that `chat-blockchain/chatblockchain.py` and `chat-http/chatblockchain.py` both define. It has the block's dictionary form, the rebuild from a dictionary, `is_chain_valid` and the chat history.
- `chat_ledger.dfy` (module `ChatLedger`) covers the `Blockchain` class of `chat-blockchain/chatblockchain.py`: the chain that grows only while valid, and the username registry. `chat-http/chatblockchain.py` repeats that class line for line.
- `chat_peers.dfy` (module `ChatPeers`) covers what `chat-http/chatblockchain.py` adds: the peer set, `validate_peer_chain` and `resolve_conflicts`. Its `PeerBlockchain` holds the chat ledger object plus the `peers` set.
- `chat_http_app.dfy` (module `ChatHttpApp`) covers the decision rules of the `/add_block`, `/register_peer` and `/register_node` routes of `chat-http/app.py`.
- `common.dfy` (module `Common`) holds shared vocabulary:
  - `Option`;
  - `Outcome` for a result or a raised exception;
  - `startswith('0' * n)`;
  - `dict.get(k, 0)`.

SHA-256 together with `json.dumps(..., sort_keys=True)` is a function parameter that is never interpreted (`Hasher`, `BlockHasher`, `Sha`, `PasswordHasher`). The lemmas that need the hash to tell two inputs apart say so in their preconditions. Clock readings, the contents of the JSON files and peers' HTTP answers are parameters too.

Mining terminates only if a suitable nonce or proof exists. The nonce loop of `mine_block` and the proof loop of `proof_of_work` therefore require a witness that one exists at or above the starting value. Their results are proved to be the least such value.

## Model

| member | source | states |
|---|---|---|
| `Common.StartsWithZerosIff` | first-blockchain/blockchain.py:25 | `startswith('0' * n)` holds exactly when the digest has at least n characters and the first n are all '0' |
| `TransferLedger.Block.CalculateHash` | first-blockchain/blockchain.py:13-22 | the digest of the block's five fields (index, previous hash, data, timestamp, nonce), serialised together; the debug print is not modelled |
| `TransferLedger.Block.constructor` | first-blockchain/blockchain.py:6-12 | a fresh block stores its five fields and carries the hash of those fields |
| `TransferLedger.Block.MineBlock` | first-blockchain/blockchain.py:24-27 | on exit: the hash is the hash of the current fields and meets the difficulty; index, previous hash, data and timestamp are unchanged; the nonce only grew and is the first nonce from the start that seals the block |
| `TransferLedger.Move` | first-blockchain/blockchain.py:68-69 | one transfer: the sender's balance (0 when absent) drops by the amount, then the receiver's (0 when absent) rises by it; same code at lines 74-75 |
| `TransferLedger.Simulate` | first-blockchain/blockchain.py:61-70 | the pass of `validate_transactions` over a copy of the balances: fails at the first transfer whose amount is not positive or exceeds the sender's current balance (missing senders count as 0), and otherwise applies the transfer and goes on; yields the final copy when every transfer passed |
| `TransferLedger.MoveConserves` | first-blockchain/blockchain.py:68-69 | one transfer leaves the sum of all balances unchanged |
| `TransferLedger.SimulateConserves` | first-blockchain/blockchain.py:61-75 | a batch that validates preserves the sum of all balances |
| `TransferLedger.SimulateKeepsNonNegative` | first-blockchain/blockchain.py:61-70 | from non-negative balances, a batch that validates leaves every balance non-negative |
| `TransferLedger.NonPositiveAmountRejects` | first-blockchain/blockchain.py:64-65 | any transfer with amount <= 0 anywhere in the batch rejects the whole batch |
| `TransferLedger.ExtendKeepsValid` | first-blockchain/blockchain.py:77-86 | appending a sealed block linked to the head keeps a valid chain valid |
| `TransferLedger.TamperedFieldsDetected` | first-blockchain/blockchain.py:82-83 | rewriting a non-genesis block's fields without resealing invalidates the chain whenever the hash distinguishes the fields |
| `TransferLedger.ResealedTamperDetected` | first-blockchain/blockchain.py:84-85 | a forged block below the head that is given a different fresh hash breaks its successor's link |
| `TransferLedger.GenesisNeverChecked` | first-blockchain/blockchain.py:78-86 | the genesis block is never checked: rewriting its fields keeps a valid chain valid |
| `TransferLedger.ReplayTransfers` | first-blockchain/blockchain.py:44-59 | the balances a chain implies: each block's batch, oldest first, passed through the validating pass from the given start |
| `TransferLedger.ReplayConserves` | first-blockchain/blockchain.py:44-59 | replaying any chain of accepted batches keeps the sum of all balances |
| `TransferLedger.DemoScenario` | first-blockchain/blockchain.py:108-123 | from Alice=1000, Bob=500 the batch [Alice→Bob 100, Bob→Alice 50] yields 950/550, and a later [Alice→Bob 2000] is rejected |
| `TransferLedger.Blockchain.constructor` | first-blockchain/blockchain.py:30-37 | the balances are Alice=1000, Bob=500 and the ledger invariant `BalancesReplayChain` holds; the chain is one genesis block (index 0, previous hash "0", "Genesis Block") mined to difficulty 4; the chain is valid |
| `TransferLedger.Blockchain.BalancesReplayChain` | first-blockchain/blockchain.py:33-59 | the ledger invariant: the balances are the seed Alice=1000, Bob=500 with every batch after the genesis block replayed in chain order |
| `TransferLedger.Blockchain.CreateGenesisBlock` | first-blockchain/blockchain.py:39-42 | appends one fresh genesis block, sealed and meeting the difficulty; the balances are unchanged |
| `TransferLedger.Blockchain.ValidateTransactions` | first-blockchain/blockchain.py:61-70 | returns true exactly when the simulated pass over a copy of the balances accepts every transfer; it modifies nothing |
| `TransferLedger.Blockchain.ExecuteTransactions` | first-blockchain/blockchain.py:72-75 | after validation, the real balances end equal to the map the simulation computed |
| `TransferLedger.Blockchain.AddBlock` | first-blockchain/blockchain.py:44-59 | returns true iff the batch validates, and it keeps the ledger invariant `BalancesReplayChain`. On rejection, chain and balances are unchanged. On acceptance: exactly one fresh mined block is appended, with index = old length, previous hash = old head hash and the batch as data; the balances are the simulated ones; chain validity is preserved |
| `TransferLedger.Blockchain.IsChainValid` | first-blockchain/blockchain.py:77-86 | true iff every block after the first carries the hash of its fields and its predecessor's hash |
| `Wallet.HashBlock` | wallet-blockchain/app.py:48-51 | the digest of the whole block dictionary, its `'hash'` key included, as `hash(block)` computes it when linking and checking blocks |
| `Wallet.ValidProof` | wallet-blockchain/app.py:59-63 | a proof is valid against the previous proof when the SHA-256 of the two decimal numerals written one after the other starts with "0000" |
| `Wallet.ProcessAll` | wallet-blockchain/app.py:31-38 | the balances after a list of transactions: each `'add'` credits and each `'withdraw'` debits its user (0 when absent), in order; other types change nothing |
| `Wallet.ProcessAllEffect` | wallet-blockchain/app.py:31-38 | for every user, the balance after processing equals the old balance plus that user's `'add'` amounts minus their `'withdraw'` amounts. Other types and other users' transactions have no effect |
| `Wallet.NoOverdraftCheck` | wallet-blockchain/app.py:37-38 | processing performs no non-negativity check: a withdrawal of 5 from nothing leaves -5 |
| `Wallet.ScenarioDeposits` | wallet-blockchain/test.py:17-21 | deposits of 100/200/300 for users 1/2/3 give balances 100/200/300 |
| `Wallet.ScenarioWithdrawals` | wallet-blockchain/test.py:38-42 | withdrawals of 50/100/150 after those deposits give 50/100/150 |
| `Wallet.ScenarioPartialWithdrawals` | wallet-blockchain/test.py:38-42 | the withdrawals queued before user 2's and before user 3's do not touch those users' balances |
| `Wallet.DepositWithdrawScenario` | wallet-blockchain/test.py:17-55 | every withdrawal of the scenario passes the available-balance check, and replaying the three-block chain gives 50/100/150 |
| `Wallet.SelectChain` | wallet-blockchain/app.py:78-85 | the selection loop over the peers' replies: a 200 reply whose declared length beats the running maximum and whose chain `valid_chain` accepts becomes the candidate and raises the maximum; an empty such chain raises IndexError |
| `Wallet.SelectedChainQualifies` | wallet-blockchain/app.py:78-85 | a chain the selection loop adopts is the non-empty chain of a reply with status 200 whose declared length exceeds the starting maximum and whose links `valid_chain` accepts |
| `Wallet.SelectionKeepsAChain` | wallet-blockchain/app.py:78-85 | once a chain has been chosen the selection loop never ends with no chain: it keeps one or raises |
| `Wallet.QualifyingReplyAdopts` | wallet-blockchain/app.py:78-85 | converse of `SelectedChainQualifies`: one reply with status 200, a declared length above the starting maximum and a chain that is empty or has valid links is enough for the loop to end with a chain or raise IndexError, never with no chain |
| `Wallet.DeclaredLengthTrusted` | wallet-blockchain/app.py:81-83 | the declared `'length'` is trusted: a three-block node adopts a one-block chain whose peer claims length 10 |
| `Wallet.EmptyPeerChainRaises` | wallet-blockchain/app.py:66 | a reply that declares a longer length but carries an empty chain makes `valid_chain` raise IndexError, which aborts the resolution |
| `Wallet.Blockchain.constructor` | wallet-blockchain/app.py:10-15 | the pool is empty, there are no nodes and no balances, and the chain is the single genesis block (index 1, proof 1, previous hash "0", hashed without its `'hash'` key) |
| `Wallet.Blockchain.CreateBlock` | wallet-blockchain/app.py:17-29 | exactly one block is appended, with index = old length + 1, the old pending pool and the given proof and previous hash; the pool is emptied; the balances are the old ones with that pool processed; the balances-replay invariant is kept |
| `Wallet.Blockchain.ProcessTransactions` | wallet-blockchain/app.py:31-38 | the balances end as the left fold of add/withdraw over the transactions |
| `Wallet.Blockchain.AddTransaction` | wallet-blockchain/app.py:40-46 | the pool grows by exactly the new transaction at its end |
| `Wallet.Blockchain.ProofOfWork` | wallet-blockchain/app.py:53-63 | returns the least non-negative proof for which the SHA-256 of `f'{last_proof}{proof}'` starts with "0000" |
| `Wallet.Blockchain.ValidChain` | wallet-blockchain/app.py:65-73 | raises IndexError on an empty chain. Otherwise it is true iff every block names the hash of the whole previous dictionary and has a proof valid against the previous proof; the stored `'hash'` is never rechecked |
| `Wallet.Blockchain.ResolveConflicts` | wallet-blockchain/app.py:75-92 | when no chain is selected it returns False, or raises IndexError, with chain and balances unchanged. When a chain is selected it is adopted and the balances are rebuilt from an empty map by replaying every block. The pool and the nodes are unchanged |
| `Wallet.WalletApp.constructor` | wallet-blockchain/app.py:94-96 | a fresh blockchain (empty pool, no nodes, no balances, and the genesis block at index 1 with proof 1 and previous hash "0"), no users, and the user counter at 0 |
| `Wallet.WalletApp.RegisterUser` | wallet-blockchain/app.py:104-110 | the counter is incremented and the new identifier is registered and returned |
| `Wallet.WalletApp.AddFunds` | wallet-blockchain/app.py:117-125 | a deposit is queued iff the user is registered and the amount is positive; otherwise the pool is unchanged; chain, balances and nodes are untouched |
| `Wallet.WalletApp.WithdrawFunds` | wallet-blockchain/app.py:127-146 | a withdrawal is queued iff the user is registered, the amount is positive and confirmed + pending adds − pending withdrawals ≥ amount; a rejection leaves the pool unchanged; after an acceptance, the user's balance once the pool is mined is non-negative |
| `Wallet.WalletApp.Mine` | wallet-blockchain/app.py:148-160 | appends one block carrying the old pool, linked to the hash of the whole head dictionary, with the least proof valid against the head's proof; the balances process the pool; valid links stay valid |
| `Wallet.WalletApp.RegisterNodes` | wallet-blockchain/app.py:176-187 | an empty list is refused with nothing changed; otherwise the nodes become the old nodes plus every listed address |
| `ChatBlocks.CalculateHash` | chat-blockchain/chatblockchain.py:15-22 | the digest of the block's four fields (index, timestamp, data, previous hash) serialised together; the stored hash is not among them |
| `ChatBlocks.NewBlock` | chat-blockchain/chatblockchain.py:8-13 | a fresh block stores its four arguments and carries the hash of them |
| `ChatBlocks.ToDict` | chat-blockchain/chatblockchain.py:24-31 | the dictionary carries the block's four fields and its hash |
| `ChatBlocks.FromDict` | chat-blockchain/chatblockchain.py:79-84 | the rebuilt block has the dictionary's four fields and a recomputed hash |
| `ChatBlocks.RebuildAll` | chat-blockchain/chatblockchain.py:78-85 | the loaded chain has one rebuilt block per saved dictionary, in order |
| `ChatBlocks.Dicts` | chat-blockchain/chatblockchain.py:71 | the saved form has one `to_dict` per block, in order |
| `ChatBlocks.DictRoundTrip` | chat-blockchain/chatblockchain.py:24-31 | a block survives `to_dict` and then the rebuild iff it is sealed; a dictionary survives the rebuild and then `to_dict` iff its declared hash is the hash of its fields |
| `ChatBlocks.SaveLoadRoundTrip` | chat-blockchain/chatblockchain.py:70-86 | saving a chain of sealed blocks and loading it back gives the same chain |
| `ChatBlocks.FromDictIgnoresDeclaredHash` | chat-blockchain/chatblockchain.py:79-84 | the rebuild does not depend on the dictionary's `'hash'` |
| `ChatBlocks.Genesis` | chat-blockchain/chatblockchain.py:43-45 | the genesis block has index 0, previous hash "0", the System/"Genesis Block" message, and is sealed |
| `ChatBlocks.NextBlock` | chat-blockchain/chatblockchain.py:48-55 | the block `add_block` builds has index = chain length, the head's hash as previous hash, the given message and time, and is sealed |
| `ChatBlocks.ExtendKeepsValid` | chat-blockchain/chatblockchain.py:48-68 | a sealed block naming the head's hash keeps a valid chain valid, and keeps an all-sealed chain all-sealed |
| `ChatBlocks.TamperDetected` | chat-blockchain/chatblockchain.py:61-68 | rewriting any of the four fields (index, timestamp, message, previous hash) of a non-genesis block while keeping its stored hash invalidates the chain whenever the hash distinguishes the forged fields from the original ones |
| `ChatBlocks.IsChainValid` | chat-blockchain/chatblockchain.py:61-68 | the early-return loop returns true iff every block after the first is sealed and names its predecessor's hash |
| `ChatBlocks.Payloads` | chat-blockchain/chatblockchain.py:108 | one message per block, in order |
| `ChatBlocks.PayloadsAppend` | chat-blockchain/chatblockchain.py:108 | appending a block appends its message |
| `ChatLedger.Blockchain.constructor` | chat-blockchain/chatblockchain.py:34-41 | the chain is the rebuilt saved chain, or a single genesis block when nothing was saved; the users are the saved ones |
| `ChatLedger.Blockchain.CreateGenesisBlock` | chat-blockchain/chatblockchain.py:43-46 | appends exactly the genesis block |
| `ChatLedger.Blockchain.IsChainValid` | chat-blockchain/chatblockchain.py:61-68 | returns exactly the validity of the current chain (same code at chat-http/chatblockchain.py:63-70) |
| `ChatLedger.Blockchain.AddBlock` | chat-blockchain/chatblockchain.py:48-59 | succeeds iff the current chain is valid. Then it appends exactly one block with index = old length and previous hash = old head hash, the chain stays valid and the history grows by the message. Otherwise it raises ValueError and leaves the chain unchanged (same code at chat-http/chatblockchain.py:50-61) |
| `ChatLedger.Blockchain.RegisterUser` | chat-blockchain/chatblockchain.py:98-102 | raises ValueError iff the username is taken, and then the users are unchanged; otherwise exactly that username is added with the hash of the password, and authentication with that password succeeds |
| `ChatLedger.Blockchain.AuthenticateUser` | chat-blockchain/chatblockchain.py:104-106 | true iff the username is registered and its stored hash is the hash of the password |
| `ChatLedger.Blockchain.GetChatHistory` | chat-blockchain/chatblockchain.py:108 | length = chain length − 1, and entry i is the message of block i + 1 |
| `ChatPeers.ValidPeerChainIsValidChain` | chat-http/chatblockchain.py:136-150 | a chain that passes peer validation rebuilds to a valid, fully sealed chain whose dictionaries are exactly the ones received |
| `ChatPeers.HonestChainPasses` | chat-http/chatblockchain.py:136-150 | the dictionaries of a valid chain of sealed blocks pass peer validation |
| `ChatPeers.SelectFrom` | chat-http/chatblockchain.py:123-129 | the selection loop over the peers' replies: a 200 reply strictly longer than the running maximum that passes `validate_peer_chain` becomes the candidate and raises the maximum |
| `ChatPeers.SelectFromSpec` | chat-http/chatblockchain.py:123-129 | the selection loop keeps what it had when no reply qualifies; otherwise it ends with the first of the longest qualifying chains |
| `ChatPeers.SelectPeerChainSpec` | chat-http/chatblockchain.py:119-130 | nothing is adopted iff no reply with status 200 is strictly longer than the local chain and valid; otherwise the adopted chain is such a reply, no qualifying reply is longer, and every earlier qualifying reply is shorter |
| `ChatPeers.ResolveIsIdempotent` | chat-http/chatblockchain.py:119-134 | a second resolution against the same replies adopts nothing |
| `ChatPeers.BlockFromKeywords` | chat-http/chatblockchain.py:8 | `Block(**block)` binds each dictionary key to the constructor parameter of that name; the call raises TypeError when a key has no parameter or a parameter has no key, and otherwise builds the sealed block |
| `ChatPeers.KeywordRebuildRaises` | chat-http/chatblockchain.py:8 | the `'hash'` key of every block dictionary has no constructor parameter, so `Block(**block)` raises TypeError on every block dictionary |
| `ChatPeers.AdoptAsWritten` | chat-http/chatblockchain.py:130-131 | the adoption step as written: no selected chain, or an empty one, returns False with the chain unchanged; otherwise the first `Block(**block)` decides: its exception propagates, and only a successful rebuild would replace the chain |
| `ChatPeers.AsWrittenNeverAdopts` | chat-http/chatblockchain.py:130-134 | as written, resolution either returns False with the chain unchanged or raises TypeError, and it raises whenever a chain was selected |
| `ChatPeers.AsWrittenAdoptionRaises` | chat-http/chatblockchain.py:131 | a genesis-only node hearing from an honest peer one block ahead selects that chain and then raises TypeError |
| `ChatPeers.PeerBlockchain.constructor` | chat-http/chatblockchain.py:34-42 | the chat ledger's construction with an empty peer set |
| `ChatPeers.PeerBlockchain.RegisterPeer` | chat-http/chatblockchain.py:114 | the peers become exactly the old peers plus the address |
| `ChatPeers.PeerBlockchain.ValidatePeerChain` | chat-http/chatblockchain.py:136-150 | true iff every declared hash equals the recomputed hash and every rebuilt block names its predecessor's hash |
| `ChatPeers.PeerBlockchain.ResolveConflicts` | chat-http/chatblockchain.py:119-134 | returns true iff a chain is selected. It then adopts that chain rebuilt, which is strictly longer than before and valid. Otherwise the chain is unchanged. Users and peers are unchanged |
| `ChatHttpApp.AcceptanceReadsOnlyPreviousHash` | chat-http/app.py:19 | acceptance of an incoming block does not depend on its index, timestamp, data or declared hash |
| `ChatHttpApp.HonestBlockAccepted` | chat-http/app.py:12-20 | a block an honest peer built on the same head is accepted, and the block appended is the peer's own |
| `ChatHttpApp.AddBlockRoute` | chat-http/app.py:9-24 | the incoming block is appended iff the local chain is valid and the rebuilt block names the head's hash. Then the chain grows by exactly the rebuilt block, whose hash is recomputed, and stays valid. Otherwise the chain is unchanged |
| `ChatHttpApp.RegisterPeerRoute` | chat-http/app.py:30-37 | a missing or empty address is refused with the peers unchanged; otherwise the address is added |
| `ChatHttpApp.RegisterNodeRoute` | chat-http/app.py:39-53 | a missing or empty address is refused with the peers unchanged. Otherwise the address is announced to exactly the peers known before and then added to the peers |

## Left out

- SHA-256 and sorted-key JSON serialisation are uninterpreted function parameters. No collision resistance is assumed. The tamper-detection lemmas require, as a precondition, that the two inputs hash differently.
- TransferLedger.Block.MineBlock: the nonce search requires a witness that some nonce at or above the current one seals the block, because termination cannot be proved. `TransferLedger.Blockchain.AddBlock`, `TransferLedger.Blockchain.CreateGenesisBlock` and `TransferLedger.Blockchain.constructor` pass that requirement on.
- Wallet.Blockchain.ProofOfWork: requires a witness that some valid proof exists, for the same reason. `Wallet.WalletApp.Mine` passes that requirement on.
- The debug `print` inside `calculate_hash` in first-blockchain/blockchain.py, `print_chain`, and the demo output are not modelled. The demo's balances are a lemma.
- Persistence (`save_chain`, `load_chain`, `save_users`, `load_users`) is not modelled as file I/O. The chat constructors take the loaded contents as parameters, and `Dicts` is what `save_chain` writes.
- Clock readings (`time.time()`, `datetime.now()`) are parameters.
- Amounts are integers. Floating-point amounts, and request bodies with missing or non-numeric fields, are not modelled.
- Network I/O is not modelled, and neither are Flask request parsing, responses, status codes and the argparse bootstrap of chat-http/app.py. Peers' answers enter as a sequence in the order the peer set is visited. `broadcast_block` and the posts of `/register_node` are not modelled; `ChatHttpApp.RegisterNodeRoute` only reports which peers would be contacted.
- chat-http/chatblockchain.py never imports `requests`, so `broadcast_block` and the fetch in `resolve_conflicts` would raise NameError once a peer is known. The model assumes the fetch succeeds and takes the replies as data.
- Peer chains are assumed to be lists of complete block records. Missing keys (KeyError) and non-list JSON are not modelled.
- ChatBlocks.Message: a block's `data` is the `{'username', 'message'}` record that the chat programs store. Arbitrary JSON payloads posted to `/add_block` are not modelled.
- `ChatLedger.Blockchain.AddBlock`, `ChatPeers.PeerBlockchain.ResolveConflicts` and `ChatHttpApp.AddBlockRoute` require the class invariant `Valid()`: the chain is non-empty and every block in it was built by the `Block` constructor. These methods do not take the IndexError path of `chain[-1]` on an empty chain. That chain cannot arise, because the constructor always leaves at least one block.
- Python objects can be mutated from outside the class, for example by rewriting `chain[i].data`. The model does not capture this for the chat blocks, which are values. Tampering is stated by lemmas over modified chains instead.
- The wallet's `users` dictionary values (`{'id': user_id}`) are determined by their keys. They are modelled as a set of identifiers.
- The `/users/list`, `/users/<id>/balance`, `/chain`, `/nodes/resolve`, `/get_chain` and `/sync_chain` routes only read state or call a modelled method. They are not modelled separately.
- The interactive command loop of chat-blockchain/chatblockchain.py is not modelled.
- wallet-blockchain/test.py is an HTTP client script. Only its scenario is modelled, as lemmas.
- Concurrency under Flask's threaded server is not modelled; every operation runs alone.
- The wallet's `resolve_conflicts` compares the peer's declared `'length'` rather than the length of the chain it sends. This is modelled as written, and `Wallet.DeclaredLengthTrusted` exhibits it.

## Findings

| source | as written | input that shows it | evidently intended | confidence | as-written member | corrected member |
|---|---|---|---|---|---|---|
| chat-http/chatblockchain.py:131 | adopts the selected peer chain with `Block(**block)`, but the constructor has no `hash` parameter and every dictionary that passed `validate_peer_chain` has a `'hash'` key, so the call raises TypeError and the chain is never replaced | a node with only its genesis block and one peer answering 200 with that genesis block plus one honestly built block | rebuild each block from its four fields, as `load_chain` and `validate_peer_chain` do, and adopt the result | high; not executed | `ChatPeers.AsWrittenAdoptionRaises` | `ChatPeers.PeerBlockchain.ResolveConflicts` |
