/** The ledger entities of src/domain/model.py: addresses, UTXOs, transaction
    inputs and outputs, transactions, block headers and blocks, with their
    canonical hashes and the Merkle commitment. */
module Model {
  import opened Common
  import opened Text
  import opened Hashing

  // ---------------------------------------------------------------------------
  // Addresses

  /** An account identity: the hex digest of a public key. */
  datatype Address = Address(hash: string)
  {
    /** `Address.__eq__`: equal hash strings. For Dafny values this is the same as `==`. */
    function Equals(other: Address): (r: bool)
      ensures r <==> this == other
    {
      hash == other.hash
    }
  }

  /** `Address.from_public_key`: the hex SHA-256 digest of the key. */
  function AddressFromPublicKey(rt: Runtime, publicKey: string): (a: Address)
    ensures |a.hash| == 2 * |rt.sha256(publicKey)| && IsHexString(a.hash)
  {
    Address(HexDigest(rt, publicKey))
  }

  /** Two keys give the same address exactly when their digests agree. */
  lemma AddressFromPublicKeyAgrees(rt: Runtime, k1: string, k2: string)
    ensures AddressFromPublicKey(rt, k1) == AddressFromPublicKey(rt, k2) <==> rt.sha256(k1) == rt.sha256(k2)
  {
    HexDigestAgreesWithDigest(rt, k1, k2);
  }

  // ---------------------------------------------------------------------------
  // UTXOs, inputs and outputs (never updated in place)

  datatype Utxo = Utxo(txId: string, outputIndex: int, amount: int, ownerAddress: Address, lockScript: Option<string>)

  datatype TxIn = TxIn(prevTxId: string, outputIndex: int, signatureScript: Option<Bytes>)
  {
    /** `TxIn.reference_key`: `"{prev_tx_id}:{output_index}"`. */
    function ReferenceKey(): string
    {
      prevTxId + ":" + IntToDecimal(outputIndex)
    }
  }

  /** The layout of a reference key: the id, a colon, then the index in decimal. */
  lemma ReferenceKeyLayout(inp: TxIn)
    ensures var k := inp.ReferenceKey();
      && |k| > |inp.prevTxId| && k[..|inp.prevTxId|] == inp.prevTxId && k[|inp.prevTxId|] == ':'
      && k[|inp.prevTxId| + 1..] == IntToDecimal(inp.outputIndex)
  {
  }

  /** Reference keys are unambiguous: the decimal index never contains a colon,
      so the last colon of a key separates the id from the index, and equal keys
      mean the same `(tx_id, index)`. */
  lemma ReferenceKeyInjective(a: TxIn, b: TxIn)
    ensures a.ReferenceKey() == b.ReferenceKey() <==> a.prevTxId == b.prevTxId && a.outputIndex == b.outputIndex
  {
    var ka, kb := a.ReferenceKey(), b.ReferenceKey();
    ReferenceKeyLayout(a);
    ReferenceKeyLayout(b);
    var la, lb := |a.prevTxId|, |b.prevTxId|;
    var da, db := IntToDecimal(a.outputIndex), IntToDecimal(b.outputIndex);
    if ka == kb {
      assert la == lb;
      assert a.prevTxId == ka[..la] == kb[..lb] == b.prevTxId;
      assert da == ka[la + 1..] == kb[lb + 1..] == db;
      IntToDecimalInjective(a.outputIndex, b.outputIndex);
    }
  }

  datatype TxOut = TxOut(amount: int, address: Address, lockScript: Option<string>)

  // ---------------------------------------------------------------------------
  // The canonical transaction hash

  /** The input part of the hash preimage; the source spells it out again rather
      than calling `reference_key`, and it is the same string. */
  function InputPart(inp: TxIn): (s: string)
    ensures s == inp.ReferenceKey()
  {
    inp.prevTxId + ":" + IntToDecimal(inp.outputIndex)
  }

  function OutputPart(rt: Runtime, out: TxOut): string
  {
    rt.formatAmount(out.amount) + ":" + out.address.hash
  }

  /** The `parts` list of `calculate_hash`: every input's reference key, then every
      output's `amount:address_hash`, in list order. */
  function HashParts(rt: Runtime, inputs: seq<TxIn>, outputs: seq<TxOut>): (parts: seq<string>)
    ensures |parts| == |inputs| + |outputs|
    ensures forall i :: 0 <= i < |inputs| ==> parts[i] == inputs[i].ReferenceKey()
    ensures forall j :: 0 <= j < |outputs| ==> parts[|inputs| + j] == OutputPart(rt, outputs[j])
  {
    seq(|inputs|, i requires 0 <= i < |inputs| => InputPart(inputs[i]))
      + seq(|outputs|, j requires 0 <= j < |outputs| => OutputPart(rt, outputs[j]))
  }

  function TxPreimage(rt: Runtime, inputs: seq<TxIn>, outputs: seq<TxOut>): string
  {
    Join(HashParts(rt, inputs, outputs), '|')
  }

  /** `Transaction.calculate_hash` on the fields it reads. */
  function TxHash(rt: Runtime, inputs: seq<TxIn>, outputs: seq<TxOut>): string
  {
    HexDigest(rt, TxPreimage(rt, inputs, outputs))
  }

  /** The hash sees only the input references and the outputs' amounts and address
      hashes: signature scripts and lock scripts do not enter it. */
  lemma TxHashDependsOnlyOnParts(rt: Runtime, in1: seq<TxIn>, out1: seq<TxOut>, in2: seq<TxIn>, out2: seq<TxOut>)
    requires |in1| == |in2| && |out1| == |out2|
    requires forall i :: 0 <= i < |in1| ==> in1[i].prevTxId == in2[i].prevTxId && in1[i].outputIndex == in2[i].outputIndex
    requires forall j :: 0 <= j < |out1| ==> out1[j].amount == out2[j].amount && out1[j].address.hash == out2[j].address.hash
    ensures TxHash(rt, in1, out1) == TxHash(rt, in2, out2)
  {
    var p1, p2 := HashParts(rt, in1, out1), HashParts(rt, in2, out2);
    assert forall k :: 0 <= k < |p1| ==> p1[k] == p2[k] by {
      forall k | 0 <= k < |p1| ensures p1[k] == p2[k] {
        if k >= |in1| {
          assert p1[k] == OutputPart(rt, out1[k - |in1|]);
        }
      }
    }
    assert p1 == p2;
  }

  /** The preimage is an unambiguous encoding: when no id, formatted amount or
      address hash contains `|`, splitting it at `|` gives back the ordered parts. */
  lemma TxPreimageDecodes(rt: Runtime, inputs: seq<TxIn>, outputs: seq<TxOut>)
    requires |inputs| + |outputs| >= 1
    requires forall i :: 0 <= i < |inputs| ==> '|' !in inputs[i].prevTxId
    requires forall j :: 0 <= j < |outputs| ==> '|' !in rt.formatAmount(outputs[j].amount) && '|' !in outputs[j].address.hash
    ensures Split(TxPreimage(rt, inputs, outputs), '|') == HashParts(rt, inputs, outputs)
  {
    var parts := HashParts(rt, inputs, outputs);
    forall k | 0 <= k < |parts| ensures '|' !in parts[k] {
      if k < |inputs| {
        var inp := inputs[k];
        assert parts[k] == inp.prevTxId + ":" + IntToDecimal(inp.outputIndex);
      } else {
        var out := outputs[k - |inputs|];
        assert parts[k] == rt.formatAmount(out.amount) + ":" + out.address.hash;
      }
    }
    SplitJoin(parts, '|');
  }

  /** A signature: `hashlib.sha256((secret + tx_hash).encode()).digest()`. */
  function Sign(rt: Runtime, secret: string, txHash: string): Bytes
  {
    rt.sha256(secret + txHash)
  }

  /** What `Transaction.verify` accepts: every input index `0..n-1` has a signature,
      the lookup yields a secret for that input, and the signature is the digest of
      that secret followed by the transaction hash. */
  predicate SignaturesValid(rt: Runtime, inputs: seq<TxIn>, outputs: seq<TxOut>,
                            signatures: map<int, Bytes>, keyLookup: TxIn -> Option<string>)
  {
    AllInputsSigned(rt, inputs, signatures, keyLookup, TxHash(rt, inputs, outputs))
  }

  /** Every input is signed over the given transaction hash. */
  predicate AllInputsSigned(rt: Runtime, inputs: seq<TxIn>, signatures: map<int, Bytes>,
                            keyLookup: TxIn -> Option<string>, txHash: string)
  {
    forall i :: 0 <= i < |inputs| ==> InputSigned(rt, inputs[i], i, signatures, keyLookup, txHash)
  }

  /** The check `verify` makes for the input `inp` at index `i`. */
  predicate InputSigned(rt: Runtime, inp: TxIn, i: int, signatures: map<int, Bytes>,
                        keyLookup: TxIn -> Option<string>, txHash: string)
  {
    && i in signatures
    && keyLookup(inp).Some?
    && signatures[i] == Sign(rt, keyLookup(inp).value, txHash)
  }

  /** The loop of `Transaction.verify` with its three early exits: a missing
      signature, a lookup that finds no secret, a signature that does not match. */
  method CheckSignatures(rt: Runtime, inputs: seq<TxIn>, signatures: map<int, Bytes>,
                         keyLookup: TxIn -> Option<string>, txHash: string) returns (ok: bool)
    ensures ok == AllInputsSigned(rt, inputs, signatures, keyLookup, txHash)
  {
    var idx := 0;
    while idx < |inputs|
      invariant 0 <= idx <= |inputs|
      invariant forall i :: 0 <= i < idx ==> InputSigned(rt, inputs[i], i, signatures, keyLookup, txHash)
    {
      if idx !in signatures {
        assert !InputSigned(rt, inputs[idx], idx, signatures, keyLookup, txHash);
        return false;
      }
      var ownerPriv := keyLookup(inputs[idx]);
      if ownerPriv.None? {
        assert !InputSigned(rt, inputs[idx], idx, signatures, keyLookup, txHash);
        return false;
      }
      var expected := Sign(rt, ownerPriv.value, txHash);
      if expected != signatures[idx] {
        assert !InputSigned(rt, inputs[idx], idx, signatures, keyLookup, txHash);
        return false;
      }
      idx := idx + 1;
    }
    return true;
  }

  /** The fields of a transaction that the UTXO replay reads. */
  datatype TxBody = TxBody(txId: Option<string>, inputs: seq<TxIn>, outputs: seq<TxOut>)

  class Transaction {
    var txId: Option<string>
    var inputs: seq<TxIn>
    var outputs: seq<TxOut>
    var signatures: map<int, Bytes>

    constructor (txId: Option<string>, inputs: seq<TxIn>, outputs: seq<TxOut>)
      ensures this.txId == txId && this.inputs == inputs && this.outputs == outputs
      ensures signatures == map[]
    {
      this.txId := txId;
      this.inputs := inputs;
      this.outputs := outputs;
      this.signatures := map[];
    }

    /** The current hash of the transaction: it reads the inputs and outputs only. */
    function Hash(rt: Runtime): string
      reads this
    {
      TxHash(rt, inputs, outputs)
    }

    /** `Transaction.calculate_hash`: the parts list is built by two loops, joined
        with `|` and hashed. */
    method CalculateHash(rt: Runtime) returns (h: string)
      ensures h == Hash(rt)
    {
      var ins, outs := inputs, outputs;
      var parts: seq<string> := [];
      for k := 0 to |ins|
        invariant |parts| == k
        invariant forall i :: 0 <= i < k ==> parts[i] == InputPart(ins[i])
      {
        parts := parts + [ins[k].prevTxId + ":" + IntToDecimal(ins[k].outputIndex)];
      }
      for k := 0 to |outs|
        invariant |parts| == |ins| + k
        invariant forall i :: 0 <= i < |ins| ==> parts[i] == InputPart(ins[i])
        invariant forall j :: 0 <= j < k ==> parts[|ins| + j] == OutputPart(rt, outs[j])
      {
        parts := parts + [rt.formatAmount(outs[k].amount) + ":" + outs[k].address.hash];
      }
      assert parts == HashParts(rt, ins, outs);
      h := HexDigest(rt, Join(parts, '|'));
    }

    function Body(): (b: TxBody)
      reads this
      ensures b.txId == txId && b.inputs == inputs && b.outputs == outputs
    {
      TxBody(txId, inputs, outputs)
    }

    /** `Transaction.verify`: the hash is taken once, then every input is checked. */
    method Verify(rt: Runtime, keyLookup: TxIn -> Option<string>) returns (ok: bool)
      ensures ok == SignaturesValid(rt, inputs, outputs, signatures, keyLookup)
    {
      var txHash := CalculateHash(rt);
      ok := CheckSignatures(rt, inputs, signatures, keyLookup, txHash);
    }

    /** `Transaction.add_signature`: sets one index of the signature map. */
    method AddSignature(inputIndex: int, signature: Bytes)
      modifies this
      ensures signatures == old(signatures)[inputIndex := signature]
      ensures txId == old(txId) && inputs == old(inputs) && outputs == old(outputs)
    {
      signatures := signatures[inputIndex := signature];
    }
  }

  /** The current transaction hashes of a list of transactions, in order. */
  function TxHashes(rt: Runtime, txs: seq<Transaction>): (hashes: seq<string>)
    reads txs
    ensures |hashes| == |txs|
  {
    if |txs| == 0 then [] else [txs[0].Hash(rt)] + TxHashes(rt, txs[1..])
  }

  /** Entry `i` of `TxHashes` is the current hash of transaction `i`. */
  lemma {:induction false} TxHashAt(rt: Runtime, txs: seq<Transaction>, i: int)
    requires 0 <= i < |txs|
    ensures TxHashes(rt, txs)[i] == txs[i].Hash(rt)
  {
    if i > 0 {
      TxHashAt(rt, txs[1..], i - 1);
    }
  }

  /** The current id, inputs and outputs of a list of transactions, in order. */
  function Bodies(txs: seq<Transaction>): (bodies: seq<TxBody>)
    reads txs
    ensures |bodies| == |txs|
  {
    if |txs| == 0 then [] else [txs[0].Body()] + Bodies(txs[1..])
  }

  /** Entry `i` of `Bodies` is the body of transaction `i`. */
  lemma {:induction false} BodyAt(txs: seq<Transaction>, i: int)
    requires 0 <= i < |txs|
    ensures Bodies(txs)[i] == TxBody(txs[i].txId, txs[i].inputs, txs[i].outputs)
  {
    if i > 0 {
      BodyAt(txs[1..], i - 1);
    }
  }

  // ---------------------------------------------------------------------------
  // Block headers

  /** An f-string prints `None` for a missing optional string. */
  function ShowOptional(s: Option<string>): string
  {
    match s
    case Some(v) => v
    case None => "None"
  }

  /** The header's seven fields, printed, in their fixed order. */
  function HeaderFields(version: int, prevHash: string, merkleRoot: string, timestamp: int,
                        nonce: int, difficulty: int, validatorId: Option<string>): (fs: seq<string>)
    ensures |fs| == 7
  {
    [IntToDecimal(version), prevHash, merkleRoot, IntToDecimal(timestamp),
     IntToDecimal(nonce), IntToDecimal(difficulty), ShowOptional(validatorId)]
  }

  /** `f"{version}:{prev_hash}:{merkle_root}:{timestamp}:{nonce}:{difficulty}:{validator_id}"`. */
  function HeaderPreimage(version: int, prevHash: string, merkleRoot: string, timestamp: int,
                          nonce: int, difficulty: int, validatorId: Option<string>): string
  {
    Join(HeaderFields(version, prevHash, merkleRoot, timestamp, nonce, difficulty, validatorId), ':')
  }

  /** Two headers whose hash strings contain no colon have the same preimage
      only if six fields agree and the validators print the same: the six
      fields before the validator fix every separator. */
  lemma HeaderPreimageCommits(v1: int, p1: string, m1: string, t1: int, n1: int, d1: int, x1: Option<string>,
                              v2: int, p2: string, m2: string, t2: int, n2: int, d2: int, x2: Option<string>)
    requires ':' !in p1 && ':' !in m1
    requires ':' !in p2 && ':' !in m2
    requires HeaderPreimage(v1, p1, m1, t1, n1, d1, x1) == HeaderPreimage(v2, p2, m2, t2, n2, d2, x2)
    ensures v1 == v2 && p1 == p2 && m1 == m2 && t1 == t2 && n1 == n2 && d1 == d2
    ensures ShowOptional(x1) == ShowOptional(x2)
  {
    var f1 := HeaderFields(v1, p1, m1, t1, n1, d1, x1);
    var f2 := HeaderFields(v2, p2, m2, t2, n2, d2, x2);
    JoinInjectiveLastFree(f1, f2, ':');
    assert f1[0] == f2[0] && f1[3] == f2[3] && f1[4] == f2[4] && f1[5] == f2[5];
    IntToDecimalInjective(v1, v2);
    IntToDecimalInjective(t1, t2);
    IntToDecimalInjective(n1, n2);
    IntToDecimalInjective(d1, d2);
  }

  /** A header's seven fields as one value. */
  datatype HeaderData = HeaderData(version: int, prevHash: string, merkleRoot: string, timestamp: int,
                                   nonce: int, difficulty: int, validatorId: Option<string>)

  class BlockHeader {
    var version: int
    var prevHash: string
    var merkleRoot: string
    var timestamp: int
    var nonce: int
    var difficulty: int
    var validatorId: Option<string>

    constructor (version: int, prevHash: string, merkleRoot: string, timestamp: int,
                 nonce: int, difficulty: int, validatorId: Option<string>)
      ensures this.version == version && this.prevHash == prevHash && this.merkleRoot == merkleRoot
      ensures this.timestamp == timestamp && this.nonce == nonce && this.difficulty == difficulty
      ensures this.validatorId == validatorId
    {
      this.version := version;
      this.prevHash := prevHash;
      this.merkleRoot := merkleRoot;
      this.timestamp := timestamp;
      this.nonce := nonce;
      this.difficulty := difficulty;
      this.validatorId := validatorId;
    }

    function Data(): (d: HeaderData)
      reads this
      ensures d.version == version && d.prevHash == prevHash && d.merkleRoot == merkleRoot
      ensures d.timestamp == timestamp && d.nonce == nonce && d.difficulty == difficulty
      ensures d.validatorId == validatorId
    {
      HeaderData(version, prevHash, merkleRoot, timestamp, nonce, difficulty, validatorId)
    }

    /** `BlockHeader.calculate_hash`. */
    function CalculateHash(rt: Runtime): (h: string)
      reads this
      ensures IsHexString(h)
      ensures |h| == 2 * |rt.sha256(HeaderPreimage(version, prevHash, merkleRoot, timestamp, nonce, difficulty, validatorId))|
    {
      HexDigest(rt, HeaderPreimage(version, prevHash, merkleRoot, timestamp, nonce, difficulty, validatorId))
    }
  }

  // ---------------------------------------------------------------------------
  // The Merkle root

  /** An odd-length level gets its last element duplicated. */
  function Pad(level: seq<string>): (r: seq<string>)
    ensures |r| % 2 == 0
    ensures |level| % 2 == 0 ==> r == level
    ensures |level| % 2 == 1 ==> r == level + [level[|level| - 1]]
  {
    if |level| % 2 == 1 then level + [level[|level| - 1]] else level
  }

  /** Hash adjacent pairs, left then right, no separator. */
  function PairUp(rt: Runtime, level: seq<string>): (r: seq<string>)
    requires |level| % 2 == 0
    ensures |r| == |level| / 2
    ensures forall j :: 0 <= j < |r| ==> r[j] == HexDigest(rt, level[2 * j] + level[2 * j + 1])
    decreases |level|
  {
    if |level| == 0 then [] else [HexDigest(rt, level[0] + level[1])] + PairUp(rt, level[2..])
  }

  /** One round of `calculate_merkle_root`: `ceil(n/2)` entries, entry `j` the hash
      of the padded level's entries `2j` and `2j+1`. */
  function MerkleRound(rt: Runtime, level: seq<string>): (r: seq<string>)
    ensures |r| == (|level| + 1) / 2
    ensures forall j :: 0 <= j < |r| ==> r[j] == HexDigest(rt, Pad(level)[2 * j] + Pad(level)[2 * j + 1])
  {
    PairUp(rt, Pad(level))
  }

  /** Rounds until one element is left. */
  function MerkleFold(rt: Runtime, level: seq<string>): string
    requires |level| >= 1
    decreases |level|
  {
    if |level| == 1 then level[0] else MerkleFold(rt, MerkleRound(rt, level))
  }

  /** The Merkle root of a list of transaction hashes; the digest of the empty
      string for an empty list. */
  function MerkleRoot(rt: Runtime, hashes: seq<string>): string
  {
    if |hashes| == 0 then HexDigest(rt, "") else MerkleFold(rt, hashes)
  }

  /** Duplicating the last element of an odd-length list (of at least three) does
      not change the root: the padding rule makes the two lists indistinguishable. */
  lemma MerkleRootIgnoresDuplicatedLast(rt: Runtime, hashes: seq<string>)
    requires |hashes| % 2 == 1 && |hashes| >= 3
    ensures MerkleRoot(rt, hashes + [hashes[|hashes| - 1]]) == MerkleRoot(rt, hashes)
  {
  }

  /** A single transaction is its own root, but a list of two equal hashes is not
      the same list: duplication is only hidden for odd lengths from three on. */
  lemma MerkleRootOfPair(rt: Runtime, a: string, b: string)
    ensures MerkleRoot(rt, [a]) == a
    ensures MerkleRoot(rt, [a, b]) == HexDigest(rt, a + b)
  {
    assert Pad([a, b]) == [a, b];
    assert PairUp(rt, [a, b]) == [HexDigest(rt, a + b)] + PairUp(rt, []);
    assert MerkleRound(rt, [a, b]) == [HexDigest(rt, a + b)];
    assert MerkleFold(rt, [a, b]) == MerkleFold(rt, [HexDigest(rt, a + b)]);
  }

  /** The `while` loop of `calculate_merkle_root`: an odd level gets its last
      hash appended, then is replaced by the hashes of its pairs. */
  method FoldLevels(rt: Runtime, hashes: seq<string>) returns (root: string)
    requires |hashes| >= 1
    ensures root == MerkleFold(rt, hashes)
  {
    var txHashes := hashes;
    while |txHashes| > 1
      invariant |txHashes| >= 1
      invariant MerkleFold(rt, txHashes) == MerkleFold(rt, hashes)
      decreases |txHashes|
    {
      ghost var level := txHashes;
      if |txHashes| % 2 == 1 {
        txHashes := txHashes + [txHashes[|txHashes| - 1]];
      }
      assert txHashes == Pad(level);
      var newLevel := HashPairs(rt, txHashes);
      assert newLevel == MerkleRound(rt, level);
      txHashes := newLevel;
    }
    root := txHashes[0];
  }

  /** The `for i in range(0, len(tx_hashes), 2)` loop over an even-length level. */
  method HashPairs(rt: Runtime, level: seq<string>) returns (newLevel: seq<string>)
    requires |level| % 2 == 0
    ensures newLevel == PairUp(rt, level)
  {
    newLevel := [];
    var i := 0;
    while i < |level|
      invariant 0 <= i <= |level| && i % 2 == 0
      invariant i == 2 * |newLevel|
      invariant forall j :: 0 <= j < |newLevel| ==> newLevel[j] == HexDigest(rt, level[2 * j] + level[2 * j + 1])
    {
      newLevel := newLevel + [HexDigest(rt, level[i] + level[i + 1])];
      i := i + 2;
    }
  }

  // ---------------------------------------------------------------------------
  // Blocks

  class Block {
    var header: BlockHeader
    var transactions: seq<Transaction>

    constructor (header: BlockHeader, transactions: seq<Transaction>)
      ensures this.header == header && this.transactions == transactions
    {
      this.header := header;
      this.transactions := transactions;
    }

    /** The header commits to the transactions it carries. */
    predicate IsStructurallyValid(rt: Runtime)
      reads this, header, transactions
    {
      header.merkleRoot == MerkleRoot(rt, TxHashes(rt, transactions))
    }

    /** `Block.calculate_merkle_root`: the digest of the empty string for no
        transactions, otherwise the fold of the transaction hashes. */
    method CalculateMerkleRoot(rt: Runtime) returns (root: string)
      ensures root == MerkleRoot(rt, TxHashes(rt, transactions))
      ensures |transactions| == 0 ==> root == HexDigest(rt, "")
      ensures |transactions| == 1 ==> root == transactions[0].Hash(rt)
    {
      if |transactions| == 0 {
        return HexDigest(rt, "");
      }
      var txHashes := TxHashes(rt, transactions);
      assert |transactions| == 1 ==> txHashes == [transactions[0].Hash(rt)];
      root := FoldLevels(rt, txHashes);
      MerkleRootOfPair(rt, txHashes[0], txHashes[0]);
    }

    /** `Block.verify`. */
    method Verify(rt: Runtime) returns (ok: bool)
      ensures ok <==> IsStructurallyValid(rt)
    {
      var root := CalculateMerkleRoot(rt);
      ok := header.merkleRoot == root;
    }

    /** `Block.add_transaction`. */
    method AddTransaction(tx: Transaction)
      modifies this
      ensures transactions == old(transactions) + [tx]
      ensures header == old(header)
    {
      transactions := transactions + [tx];
    }
  }
}
