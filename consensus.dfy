/** The consensus adapters of src/adapters/consensus.py: a proof-of-work nonce
    search against a prefix of hex zeros, and a proof-of-stake stub. */
module Consensus {
  import opened Common
  import opened Text
  import opened Hashing
  import opened Model

  /** The required prefix: `max(1, difficulty)` zeros. */
  function PowTarget(difficulty: int): (t: string)
    ensures |t| == if difficulty > 1 then difficulty else 1
    ensures forall i :: 0 <= i < |t| ==> t[i] == '0'
  {
    Repeat('0', if difficulty > 1 then difficulty else 1)
  }

  /** What `mine` hashes for one nonce: previous hash, Merkle root, nonce and
      timestamp, written out one after the other with no separator. */
  function PowPreimage(prevHash: string, merkleRoot: string, nonce: int, timestamp: int): string
  {
    prevHash + merkleRoot + IntToDecimal(nonce) + IntToDecimal(timestamp)
  }

  function PowDigest(rt: Runtime, prevHash: string, merkleRoot: string, nonce: int, timestamp: int): string
  {
    HexDigest(rt, PowPreimage(prevHash, merkleRoot, nonce, timestamp))
  }

  /** The nonce seals a header with these fields at this difficulty. */
  predicate Seals(rt: Runtime, prevHash: string, merkleRoot: string, timestamp: int, difficulty: int, nonce: int)
  {
    StartsWith(PowDigest(rt, prevHash, merkleRoot, nonce, timestamp), PowTarget(difficulty))
  }

  /** Difficulty 0 and negative difficulties ask for the same single zero as 1. */
  lemma LowDifficultiesAgree(d: int)
    requires d <= 1
    ensures PowTarget(d) == PowTarget(1) == "0"
  {
  }

  /** A digest meeting a target also meets every lower one. */
  lemma SealsAtLowerDifficulty(rt: Runtime, prevHash: string, merkleRoot: string, timestamp: int, d1: int, d2: int, nonce: int)
    requires d1 <= d2
    requires Seals(rt, prevHash, merkleRoot, timestamp, d2, nonce)
    ensures Seals(rt, prevHash, merkleRoot, timestamp, d1, nonce)
  {
  }

  class ProofOfWorkAdapter {
    const difficulty: int

    constructor (difficulty: int)
      ensures this.difficulty == difficulty
    {
      this.difficulty := difficulty;
    }

    /** `ProofOfWorkAdapter.mine`: tries nonces 0, 1, 2, ... and stores the first
        one whose digest starts with the target. The source loops for ever when no
        nonce works; the model asks that one exists. */
    method Mine(rt: Runtime, header: BlockHeader) returns (h: string)
      requires exists n: nat :: Seals(rt, header.prevHash, header.merkleRoot, header.timestamp, difficulty, n)
      modifies header
      ensures header.nonce >= 0
      ensures h == PowDigest(rt, header.prevHash, header.merkleRoot, header.nonce, header.timestamp)
      ensures StartsWith(h, PowTarget(difficulty))
      ensures forall m :: 0 <= m < header.nonce ==> !Seals(rt, header.prevHash, header.merkleRoot, header.timestamp, difficulty, m)
      ensures header.version == old(header.version) && header.prevHash == old(header.prevHash)
      ensures header.merkleRoot == old(header.merkleRoot) && header.timestamp == old(header.timestamp)
      ensures header.difficulty == old(header.difficulty) && header.validatorId == old(header.validatorId)
    {
      var target := PowTarget(difficulty);
      var prevHash, merkleRoot, timestamp := header.prevHash, header.merkleRoot, header.timestamp;
      ghost var bound: nat :| Seals(rt, prevHash, merkleRoot, timestamp, difficulty, bound);
      var nonce := 0;
      while true
        invariant 0 <= nonce <= bound
        invariant forall m :: 0 <= m < nonce ==> !Seals(rt, prevHash, merkleRoot, timestamp, difficulty, m)
        decreases bound - nonce
      {
        var s := prevHash + merkleRoot + IntToDecimal(nonce) + IntToDecimal(timestamp);
        h := HexDigest(rt, s);
        if StartsWith(h, target) {
          header.nonce := nonce;
          return;
        }
        assert !Seals(rt, prevHash, merkleRoot, timestamp, difficulty, nonce);
        nonce := nonce + 1;
      }
    }
  }

  /** The 64-zero previous hash of a block with no predecessor. */
  const GenesisPrevHash := Repeat('0', 64)

  /** A block as `mine_block` and `stake_block` build it: a version-1 header with
      these fields, carrying these transactions, whose Merkle root commits to
      them. The nonce is left open. */
  predicate Assembled(rt: Runtime, block: Block, prevHash: string, timestamp: int, difficulty: int,
                      validator: string, transactions: seq<Transaction>)
    reads block, block.header, transactions
  {
    && block.transactions == transactions
    && block.header.Data()
       == HeaderData(1, prevHash, MerkleRoot(rt, TxHashes(rt, transactions)), timestamp, block.header.nonce,
                     difficulty, Some(validator))
  }

  /** The steps `stake_block`, `mine_block` and the stake adapter share: a
      version-1 header with an empty Merkle root and nonce 0, a block around it,
      then the header's root set to the block's recomputed one. */
  method NewBlock(rt: Runtime, prevHash: string, timestamp: int, difficulty: int, validator: string,
                  transactions: seq<Transaction>) returns (block: Block)
    ensures fresh(block) && fresh(block.header)
    ensures Assembled(rt, block, prevHash, timestamp, difficulty, validator, transactions)
    ensures block.header.nonce == 0
  {
    var header := new BlockHeader(1, prevHash, "", timestamp, 0, difficulty, Some(validator));
    block := new Block(header, transactions);
    var root := block.CalculateMerkleRoot(rt);
    block.header.merkleRoot := root;
  }

  class MockProofOfStakeAdapter {
    const validators: seq<string>

    /** `validators or []`: a missing list becomes the empty one. */
    constructor (validators: Option<seq<string>>)
      ensures this.validators == if validators.Some? then validators.value else []
    {
      this.validators := if validators.Some? then validators.value else [];
    }

    /** `validate_block`: every block is accepted. */
    function ValidateBlock(block: Block): (r: bool)
      ensures r
    {
      true
    }

    /** `MockProofOfStakeAdapter.stake_block`: a version-1 block on the all-zero
        previous hash, with no sealing, committed to the given transactions. */
    method StakeBlock(rt: Runtime, transactions: seq<Transaction>, validator: string, now: int) returns (block: Block)
      ensures fresh(block) && fresh(block.header)
      ensures Assembled(rt, block, GenesisPrevHash, now, 0, validator, transactions)
      ensures block.header.nonce == 0
    {
      block := NewBlock(rt, GenesisPrevHash, now, 0, validator, transactions);
    }
  }
}
