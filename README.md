# Ledger engine of the crypto wallet simulator, in Dafny

This project models the ledger core of a toy UTXO blockchain written in Python. It covers:

- **Domain entities** (`model.dfy`, module `Model`): addresses, UTXOs, transaction inputs and
  outputs, transactions, block headers and blocks. It includes the canonical transaction hash,
  signature checking, the header hash and the Merkle root.
- **Repository** (`persistence.dfy`, module `Persistence`): the in-memory ledger repository, an
  append-only block list plus the UTXO dictionary keyed by `"tx_id:index"`. The dictionary's
  insertion order is modelled, because coin selection walks `all_utxos()` in that order.
- **Consensus adapters** (`consensus.py` → `consensus.dfy`, module `Consensus`): the
  proof-of-work nonce search and the proof-of-stake stub.
- **Services** (`services.dfy`, module `Services`): wallets and balances, first-fit coin
  selection with the insufficient-funds error, signing, verification, and the mining and staking
  services. The last two append a block and replay its UTXO deltas.
- **Unit of work** (`unit_of_work.dfy`, module `UnitOfWork`): stage, commit, rollback and the
  context-manager exit.
- **Support modules**: `common.dfy` (Option, Result, `Distinct`), `text.dfy` (Python's `str`
  of an integer, `startswith`, `join` and `split`) and `hashing.dfy` (hex encoding and the
  hashing interface).

Every member that hashes takes `rt: Runtime`, which has two fields:

- `rt.sha256`: the raw SHA-256 digest;
- `rt.formatAmount`: how Python prints an amount.

`hexdigest()` is the concrete lowercase hex encoding of `rt.sha256`. Every theorem therefore
holds for every hash function: nothing assumes collision resistance. Integers are printed
concretely, the way Python's `str` prints an `int`. The wall clock (`int(time.time())`) is the
parameter `now`.

Objects the source updates in place are classes: `Transaction`, `BlockHeader`, `Block`, the
repository, the wallet service and the unit of work. The adapters and the other services are
classes as in the source, but hold only what their constructors set. Each loop of the
source is a method with loop invariants, proved against a specification function:

| loop | specification function |
|---|---|
| `calculate_hash` | `Transaction.Hash` |
| `verify` | `SignaturesValid` |
| the Merkle levels | `MerkleFold` / `PairUp` |
| `mine` | the least nonce satisfying `Consensus.Seals` |
| coin selection | `SelectCoins` |
| `sign_transaction` | `SignatureMap` |
| the UTXO replay | `ApplyTxs` |
| `commit` | concatenation |

## Model

| member | source | states |
|---|---|---|
| Model.Address.Equals | src/domain/model.py:17-20 | Holds exactly when the two addresses have the same hash string, i.e. are the same value. |
| Model.AddressFromPublicKey | src/domain/model.py:11-15 | The address is the hex digest of the public key: lowercase hex, twice as long as the raw digest. |
| Model.AddressFromPublicKeyAgrees | src/domain/model.py:11-15 | Two public keys give the same address exactly when their SHA-256 digests are equal. |
| Model.TxIn.ReferenceKey | src/domain/model.py:44-45 | No contract of its own: the body computes the previous transaction id, a colon and the decimal output index. The two lemmas below state its layout and injectivity. |
| Model.ReferenceKeyLayout | src/domain/model.py:44-45 | A reference key is the previous transaction id, then `:`, then the output index in decimal. |
| Model.ReferenceKeyInjective | src/domain/model.py:44-45 | Two inputs have the same reference key exactly when they name the same (id, index). This holds for every id, as the decimal index contains no colon. |
| Model.InputPart | src/domain/model.py:64-65 | The input part `calculate_hash` writes for an input is the same string as that input's `reference_key`. |
| Model.HashParts | src/domain/model.py:63-67 | The parts list holds one reference key per input, in order, followed by one `amount:address_hash` per output, in order. |
| Model.TxHashDependsOnlyOnParts | src/domain/model.py:62-69 | Equal input references and equal (amount, address hash) pairs give equal hashes. Signature scripts and lock scripts never enter the hash. |
| Model.TxPreimageDecodes | src/domain/model.py:68 | For a transaction with at least one input or output, when no part contains `\|`, splitting the preimage at `\|` gives back the ordered parts: the encoding is unambiguous. |
| Model.Transaction.constructor | src/domain/model.py:55-60 | A transaction starts with the given id, inputs and outputs and an empty signature map, the dataclass default. |
| Model.Transaction.CalculateHash | src/domain/model.py:62-69 | The two loops and the join compute `Hash`, the digest of the current inputs and outputs. Signatures and `tx_id` are not read. |
| Model.CheckSignatures | src/domain/model.py:77-92 | Returns true exactly when every input index has a signature, the lookup finds a secret for that input, and the signature equals `sha256(secret + tx_hash)`. Each of the three early `False` exits is covered. A transaction with no inputs passes. |
| Model.Transaction.Verify | src/domain/model.py:71-92 | The result is `SignaturesValid` of the current inputs, outputs and signatures, with the hash taken once up front. |
| Model.Transaction.AddSignature | src/domain/model.py:94-95 | Sets the signature at that one index, and nothing else changes. |
| Model.Pad | src/domain/model.py:123-124 | An odd level gets its last hash appended. An even level is left unchanged. |
| Model.PairUp | src/domain/model.py:125-127 | From an even level, produces `n/2` entries, entry `j` being the hex digest of entries `2j` and `2j+1` concatenated. |
| Model.MerkleRound | src/domain/model.py:122-128 | One round has `ceil(n/2)` entries, entry `j` being the digest of the padded level's entries `2j` and `2j+1`. |
| Model.MerkleRootIgnoresDuplicatedLast | src/domain/model.py:122-129 | For an odd list of three or more hashes, duplicating the last hash leaves the root unchanged. |
| Model.MerkleRootOfPair | src/domain/model.py:118-129 | A single hash is its own root. A pair's root is the digest of the two concatenated. |
| Model.FoldLevels | src/domain/model.py:122-129 | The `while` loop with its padding step returns the fold of the hash levels down to one entry. |
| Model.HashPairs | src/domain/model.py:125-128 | The step-2 `for` loop builds exactly the paired level. |
| Model.TxHashAt | src/domain/model.py:121 | Entry `i` of the transaction-hash list is the current hash of transaction `i`. |
| Model.Block.constructor | src/domain/model.py:113-116 | Sets the header and the transaction list to the given ones. |
| Model.Block.CalculateMerkleRoot | src/domain/model.py:118-129 | The root of the current transaction hashes. It is the digest of the empty string with no transactions, and the transaction's own hash with one. |
| Model.Block.Verify | src/domain/model.py:131-132 | True exactly when the header's Merkle root equals the recomputed root. |
| Model.Block.AddTransaction | src/domain/model.py:134-135 | Appends the transaction and keeps the header. |
| Model.HeaderPreimageCommits | src/domain/model.py:108-110 | The seven header fields are joined with `:` in a fixed order. When the previous hash and the Merkle root contain no colon, equal preimages mean the six other fields agree and the validator prints the same, whatever the validator contains. A missing validator and the validator named `None` print alike. |
| Model.BlockHeader.constructor | src/domain/model.py:98-106 | Sets all seven header fields to the given values. |
| Model.BlockHeader.CalculateHash | src/domain/model.py:108-110 | The hex digest of the colon-joined preimage: a lowercase hex string twice as long as the raw digest. |
| Persistence.UtxoKey | src/adapters/persistence.py:54-56 | The key `add_utxo` files an output under is the `reference_key` of an input spending it. |
| Persistence.UtxoKeySeparatesIndices | src/adapters/persistence.py:54-56 | Two outputs of one transaction never share a key. |
| Persistence.Put | src/adapters/persistence.py:54-56 | `utxo_set[key] = utxo` is an upsert: the entries become `entries[key := utxo]`, and insertion order stays well formed. |
| Persistence.Delete | src/adapters/persistence.py:58-60 | Removing a key takes exactly that key out of the entries, a missing key being no error, and keeps the order well formed. |
| Persistence.DeleteIdempotent | src/adapters/persistence.py:58-60 | Removing the same key twice is the same as removing it once. |
| Persistence.Values | src/adapters/persistence.py:62-63 | `values()` lists the entry of each live key, in insertion order. |
| Persistence.ValuesOnePerKey | src/adapters/persistence.py:62-63 | The values list has one element per live key, and every stored UTXO appears at its key's position. |
| Persistence.ValuesAfterInsert | src/adapters/persistence.py:54-56 | Upserting a new key appends its value at the end of `values()`. |
| Persistence.ValuesAfterOverwrite | src/adapters/persistence.py:54-56 | Upserting a live key replaces its value in place. |
| Persistence.ValuesAfterDelete | src/adapters/persistence.py:58-60 | Deleting a live key removes its value and keeps the rest in order. |
| Persistence.InMemoryLedgerRepository.constructor | src/adapters/persistence.py:33-36 | Starts with no blocks and an empty UTXO dictionary. |
| Persistence.InMemoryLedgerRepository.GetBlock | src/adapters/persistence.py:38-41 | Returns the block at that height when `0 <= height < len(blocks)`, and `None` otherwise. |
| Persistence.InMemoryLedgerRepository.GetLatestBlock | src/adapters/persistence.py:43-46 | `None` exactly for an empty chain; otherwise the last block. |
| Persistence.InMemoryLedgerRepository.AddBlock | src/adapters/persistence.py:48-49 | Appends the block, which becomes the block at the old length and the latest block. The UTXO dictionary is unchanged. |
| Persistence.InMemoryLedgerRepository.GetUtxo | src/adapters/persistence.py:51-52 | Returns the UTXO under `"tx_id:index"`, and `None` exactly when that key is absent. |
| Persistence.InMemoryLedgerRepository.AddUtxo | src/adapters/persistence.py:54-56 | An upsert under the UTXO's own key: `get_utxo` now returns it, and every other key and the blocks are unchanged. |
| Persistence.InMemoryLedgerRepository.RemoveUtxo | src/adapters/persistence.py:58-60 | Afterwards the key is absent, whether it was present or not. Every other key and the blocks are unchanged. |
| Persistence.InMemoryLedgerRepository.AllUtxos | src/adapters/persistence.py:62-63 | Returns as many values as there are keys, the `i`-th being the value of the `i`-th key in insertion order. |
| Consensus.ProofOfWorkAdapter.constructor | src/adapters/consensus.py:2-3 | Keeps the difficulty it is given. |
| Consensus.PowTarget | src/adapters/consensus.py:8 | The target is `max(1, difficulty)` zeros. |
| Consensus.LowDifficultiesAgree | src/adapters/consensus.py:8 | Difficulty 0 and negative difficulties ask for the same single `0` as difficulty 1. |
| Consensus.SealsAtLowerDifficulty | src/adapters/consensus.py:8-13 | A nonce that seals at one difficulty also seals at every lower one. |
| Consensus.ProofOfWorkAdapter.Mine | src/adapters/consensus.py:5-16 | Returns `hexdigest(prev_hash + merkle_root + str(nonce) + str(timestamp))`, which starts with the target. The stored nonce is the least one that works, no smaller nonce seals, and every other header field is unchanged. |
| Consensus.NewBlock | src/adapters/consensus.py:31-34 | Builds a fresh version-1 block with the given previous hash, timestamp, difficulty, validator and transactions, and nonce 0. Its header root is set to the recomputed Merkle root. |
| Consensus.MockProofOfStakeAdapter.constructor | src/adapters/consensus.py:20-21 | A missing validator list becomes the empty list. |
| Consensus.MockProofOfStakeAdapter.ValidateBlock | src/adapters/consensus.py:23-25 | Every block is accepted. |
| Consensus.MockProofOfStakeAdapter.StakeBlock | src/adapters/consensus.py:27-35 | Returns a fresh block with previous hash 64 zeros, version 1, nonce 0, difficulty 0, the validator, the given transactions and the recomputed Merkle root. |
| Services.OwnedBy | src/service_layer/services.py:28 | Keeps exactly the UTXOs the address owns. |
| Services.OwnedByConcat | src/service_layer/services.py:38 | Filtering by owner distributes over concatenation, so the owner's UTXOs keep their store order and multiplicity. |
| Services.OwnedSumIsSumShares | src/service_layer/services.py:28-29 | Filtering by owner and then summing gives each UTXO's share summed. |
| Services.BalanceAfterPut | src/adapters/persistence.py:54-56 | After an upsert, an address's balance loses what it held under the key and gains the new UTXO's amount if it owns it. |
| Services.BalanceAfterDelete | src/adapters/persistence.py:58-60 | After a removal, an address's balance loses exactly what it held under the key. |
| Services.DeriveWallet | src/service_layer/services.py:19-25 | The private key, the public key and the address hash are all hex digests. |
| Services.DeriveWalletAgrees | src/service_layer/services.py:21-23 | Two names give the same wallet exactly when the digests of `name + "_priv"` are equal. |
| Services.WalletService.constructor | src/service_layer/services.py:15-17 | Starts with an empty wallet store. |
| Services.WalletService.CreateWallet | src/service_layer/services.py:19-25 | Returns the derived wallet and stores it under the name, replacing any earlier one. |
| Services.WalletService.GetBalance | src/service_layer/services.py:27-29 | The sum of the amounts of the owner's UTXOs, i.e. `Balance`. |
| Services.SelectCoins | src/service_layer/services.py:41-49 | On success, returns the length of the shortest prefix of the owner's UTXOs, in store order, whose total reaches the required sum. It fails exactly when no prefix reaches it, and then reports the total of all of them. |
| Services.SelectNothing | src/service_layer/services.py:39-40 | With no UTXOs, selection fails with 0 available. |
| Services.SelectCoinsAt | src/service_layer/services.py:46-47 | The first prefix whose running total reaches the sum is the selection. |
| Services.InputsFor | src/service_layer/services.py:43-44 | One unsigned input per selected UTXO, in order, naming its id and index. |
| Services.SelectInputs | src/service_layer/services.py:43-47 | The loop with its `break` builds the inputs and total of the selection. On failure it builds those of all UTXOs, and the total falls short. |
| Services.TransactionService.constructor | src/service_layer/services.py:33-34 | Keeps the given repository. |
| Services.TransactionService.CreateTransaction | src/service_layer/services.py:36-52 | With no UTXOs, fails with InsufficientFunds(address, required, 0). Without a covering prefix, fails with the total as available. Otherwise returns a fresh transaction with the first-fit inputs, the given outputs, no signatures and `tx_id` equal to its own hash. |
| Services.SignatureMap | src/service_layer/services.py:56-58 | Maps indices `0..n-1`, and only those, to the same signature. |
| Services.TransactionService.SignTransaction | src/service_layer/services.py:54-58 | Every input index gets `sha256(priv + hash)`, the hash being taken before signing. Inputs, outputs, id and hash are unchanged. |
| Services.SignedVerifiesIff | src/service_layer/services.py:54-58 | After signing, verification succeeds exactly when the lookup finds, for every input, a secret whose signature over the hash is the same. |
| Services.SignedTransactionVerifies | src/service_layer/services.py:54-58 | Signing then verifying with a lookup that returns the signing secret succeeds. |
| Services.TransactionService.VerifyTransaction | src/service_layer/services.py:60-64 | The result is `Transaction.verify` with the given lookup. |
| Services.SpendAll | src/service_layer/services.py:82-83 | Removing every input's reference key leaves the entries minus exactly those keys. |
| Services.CreateAll | src/service_layer/services.py:84-86 | Adding the outputs leaves the entries overridden by one new UTXO per output under `tx_id:index`. |
| Services.OutputEntryAt | src/service_layer/services.py:84-86 | Output `j` is filed under `tx_id:j` as a UTXO with its amount and address and no lock script. |
| Services.OutputEntriesOnly | src/service_layer/services.py:84-86 | Nothing but the outputs' own keys is written. |
| Services.ApplyTx | src/service_layer/services.py:82-86 | One transaction's delta: its inputs are spent, then its outputs created. |
| Services.ApplyTxEffect | src/service_layer/services.py:82-86 | After one transaction every output is live under its key, and a spent key that no output reuses is gone. Every other key is untouched. |
| Services.ApplyTxs | src/service_layer/services.py:81-86 | Replaying the deltas in list order keeps the dictionary well formed. |
| Services.SpendInputs | src/service_layer/services.py:82-83 | The `remove_utxo` loop computes `SpendAll` and leaves the blocks unchanged. |
| Services.CreateOutputs | src/service_layer/services.py:84-86 | The `add_utxo` loop computes `CreateAll` under the id as it prints, and leaves the blocks unchanged. |
| Services.ReplayDeltas | src/service_layer/services.py:81-86 | The replay loop computes `ApplyTxs` of the transactions' current bodies. |
| Services.AppendAndReplay | src/service_layer/services.py:79-86 | The block is appended and the UTXO table becomes the replay of its transactions. |
| Services.TipHash | src/service_layer/services.py:73-74 | The previous hash a new block links to: 64 zeros for an empty chain, otherwise the header hash of the last block. |
| Services.SealedBlock | src/service_layer/services.py:74-78 | A fresh block assembled with the given fields is sealed with the least nonce whose digest meets the adapter's difficulty. |
| Services.MiningService.constructor | src/service_layer/services.py:68-70 | Keeps the given repository and proof-of-work adapter. |
| Services.MiningService.MineBlock | src/service_layer/services.py:72-87 | Appends one fresh block sealed with the least working nonce, then replays its transactions into the UTXO table. Its fields: previous hash = the tip's header hash (64 zeros for an empty chain), version 1, the given timestamp, the adapter's difficulty, the validator, and a header root committing to the transactions. |
| Services.StakingService.constructor | src/service_layer/services.py:91-93 | Keeps the given repository and proof-of-stake adapter. |
| Services.StakingService.StakeBlock | src/service_layer/services.py:95-110 | As `mine_block`, but with nonce 0, difficulty 0 and no sealing: the block is appended and its deltas replayed. |
| UnitOfWork.ItemRepository.Add | src/service_layer/unit_of_work.py:32 | The repository receives the item at the end of what it has been given. |
| UnitOfWork.InMemoryUoW.constructor | src/service_layer/unit_of_work.py:24-26 | Keeps the repository, possibly none, and starts with nothing staged. |
| UnitOfWork.InMemoryUoW.Stage | src/service_layer/unit_of_work.py:38-39 | Appends the item to the staged list. |
| UnitOfWork.InMemoryUoW.Commit | src/service_layer/unit_of_work.py:28-33 | With a repository, it receives every staged item in staging order. Without one, the items are dropped. Either way nothing stays staged. |
| UnitOfWork.InMemoryUoW.Rollback | src/service_layer/unit_of_work.py:35-36 | Drops the staged items without touching the repository. |
| UnitOfWork.InMemoryUoW.Exit | src/service_layer/unit_of_work.py:9-13 | A rollback when the block raised, which leaves the repository unchanged; a commit otherwise. |

## Left out

- **Floating point:** amounts are `int`. Python prints an amount as a float in the hash preimage; that printing is the uninterpreted `rt.formatAmount`. Rounding in `total += u.amount` and in `sum(...)` is not modelled.
- **Digest length:** SHA-256 internals and its 32-byte length are not modelled: `rt.sha256` is any function from strings to byte sequences.
- **Default arguments:** the defaults `difficulty=2` of `ProofOfWorkAdapter.__init__` and `nonce=0`, `difficulty=1`, `validator_id=None` of `BlockHeader`, and the empty default transaction list of `Block`, are not modelled. Every call site in the core passes these arguments explicitly.
- **Services.TransactionService.VerifyTransaction:**
  - the `try`/`except` that would wrap an exception from the lookup into `InvalidTransactionException` is not modelled, because the lookup is a total function `TxIn -> Option<string>`;
  - the source's docstring says the lookup takes an `Address`, but the code passes a `TxIn`; the model follows the code.
- **Exception messages:** their formatting is not modelled, only the kind of error and its payload. `DoubleSpend` and `InvalidSignature` are declared but never produced, as in the source.
- **UTXO `tx_id`:** a UTXO created by the replay stores the transaction's `tx_id` as the f-string prints it. The source stores the `Optional` value itself, so `None` in the source is the text `None` in the model. The dictionary key is the same either way.
- **Consensus.ProofOfWorkAdapter.Mine:** requires that some nonce seals the header. The source loops for ever when none does. `Services.MiningService.MineBlock` and `Services.SealedBlock` carry the same requirement.
- **Unused return:** the hex digest `mine` returns is discarded by `mine_block`, as in the source.
- **Timestamps:** `int(time.time())` is the parameter `now`.
- **Unused validators:** `MockProofOfStakeAdapter.validators` is stored but never used by the source.
- **Aliasing:** aliasing of Python lists is not modelled. A block keeps the transaction sequence it was given, and `add_transaction` replaces it with a longer one. A caller holding the old list therefore does not see the append.
- **`UTXO.is_spendable_by` and `__enter__`:** not modelled. Nothing in the core calls `is_spendable_by`, and `__enter__` only returns the unit of work itself.
- **UnitOfWork.ItemRepository:** the unit of work's repository is seen only through its `add` method, which no repository in the source defines. The model records the items it receives.
- **UnitOfWork.InMemoryUoW.Exit:** takes whether an exception is present rather than the exception triple.
- **Helper methods:** `Model.CheckSignatures`, `Model.FoldLevels`, `Model.HashPairs`, `Services.SelectInputs`, `Services.SpendInputs`, `Services.CreateOutputs`, `Services.ReplayDeltas`, `Services.AppendAndReplay`, `Services.SealedBlock` and `Consensus.NewBlock` only split the loops of one source function into separate methods. `mine_block`, `stake_block` and the stake adapter share them as the source repeats them.
- **Out of scope:** the command-line interface, the message bus and its message types.
