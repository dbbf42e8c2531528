/** The services of src/service_layer/services.py: wallets and balances, coin
    selection, signing and verification, and the mining and staking services
    that append a block and replay its UTXO deltas. */
module Services {
  import opened Common
  import opened Text
  import opened Hashing
  import opened Model
  import opened Persistence
  import opened Consensus

  /** The domain exceptions with their payloads. Only `InsufficientFunds` is ever
      raised; the others are imported by the services but never produced. */
  datatype LedgerError =
    | InsufficientFunds(address: Address, required: int, available: int)
    | DoubleSpend(utxo: Option<Utxo>)
    | InvalidSignature
    | InvalidTransaction(transaction: Transaction)

  // ---------------------------------------------------------------------------
  // Sums and ownership

  function SumAmounts(us: seq<Utxo>): int
  {
    if |us| == 0 then 0 else SumAmounts(us[..|us| - 1]) + us[|us| - 1].amount
  }

  function SumOutputs(outs: seq<TxOut>): int
  {
    if |outs| == 0 then 0 else SumOutputs(outs[..|outs| - 1]) + outs[|outs| - 1].amount
  }

  /** `[u for u in utxos if u.owner_address == address]`. */
  function OwnedBy(us: seq<Utxo>, a: Address): (r: seq<Utxo>)
    ensures |r| <= |us|
    ensures forall u :: u in r <==> u in us && u.ownerAddress == a
  {
    if |us| == 0 then []
    else
      var last := us[|us| - 1];
      assert us == us[..|us| - 1] + [last];
      OwnedBy(us[..|us| - 1], a) + (if last.ownerAddress.Equals(a) then [last] else [])
  }

  /** Filtering distributes over concatenation: the owner's UTXOs keep their
      store order and multiplicity. */
  lemma {:induction false} OwnedByConcat(x: seq<Utxo>, y: seq<Utxo>, a: Address)
    ensures OwnedBy(x + y, a) == OwnedBy(x, a) + OwnedBy(y, a)
    decreases |y|
  {
    if |y| == 0 {
      assert x + y == x;
    } else {
      var y', last := y[..|y| - 1], y[|y| - 1];
      assert (x + y)[..|x + y| - 1] == x + y';
      assert (x + y)[|x + y| - 1] == last;
      OwnedByConcat(x, y', a);
    }
  }

  /** What one UTXO contributes to the balance of `a`. */
  function Share(u: Utxo, a: Address): int
  {
    if u.ownerAddress == a then u.amount else 0
  }

  /** The balance of `a` over a list of UTXOs, one UTXO at a time. */
  function SumShares(us: seq<Utxo>, a: Address): int
  {
    if |us| == 0 then 0 else SumShares(us[..|us| - 1], a) + Share(us[|us| - 1], a)
  }

  lemma {:induction false} SumSharesConcat(x: seq<Utxo>, y: seq<Utxo>, a: Address)
    ensures SumShares(x + y, a) == SumShares(x, a) + SumShares(y, a)
    decreases |y|
  {
    if |y| > 0 {
      var y' := y[..|y| - 1];
      assert (x + y)[..|x + y| - 1] == x + y';
      SumSharesConcat(x, y', a);
    } else {
      assert x + y == x;
    }
  }

  /** Filtering then summing is summing the shares. */
  lemma {:induction false} OwnedSumIsSumShares(us: seq<Utxo>, a: Address)
    ensures SumAmounts(OwnedBy(us, a)) == SumShares(us, a)
  {
    if |us| > 0 {
      var init, last := us[..|us| - 1], us[|us| - 1];
      OwnedSumIsSumShares(init, a);
      var o := OwnedBy(init, a);
      if last.ownerAddress == a {
        assert OwnedBy(us, a) == o + [last];
        assert (o + [last])[..|o|] == o;
      } else {
        assert OwnedBy(us, a) == o;
      }
    }
  }

  /** The balance of `a` in a UTXO table. */
  ghost function Balance(t: UtxoTable, a: Address): int
    requires t.WellFormed()
  {
    SumShares(Values(t), a)
  }

  /** The share of `a` in whatever is stored under `k`. */
  function Held(t: UtxoTable, k: string, a: Address): int
  {
    if k in t.entries then Share(t.entries[k], a) else 0
  }

  /** Splitting the values at a live key's position. */
  lemma BalanceSplitAt(t: UtxoTable, p: int, a: Address)
    requires t.WellFormed() && 0 <= p < |t.order|
    ensures Balance(t, a) == SumShares(Values(t)[..p], a) + Held(t, t.order[p], a) + SumShares(Values(t)[p + 1..], a)
  {
    var vs := Values(t);
    assert vs == vs[..p] + [vs[p]] + vs[p + 1..];
    SumSharesConcat(vs[..p] + [vs[p]], vs[p + 1..], a);
    SumSharesConcat(vs[..p], [vs[p]], a);
    assert SumShares([vs[p]], a) == Share(vs[p], a) by {
      assert [vs[p]][..0] == [];
    }
  }

  /** An upsert replaces what `a` held under the key by the new UTXO's share. */
  lemma BalanceAfterPut(t: UtxoTable, k: string, u: Utxo, a: Address)
    requires t.WellFormed()
    ensures Balance(Put(t, k, u), a) == Balance(t, a) - Held(t, k, a) + Share(u, a)
  {
    var vs := Values(t);
    if k in t.entries {
      var p :| 0 <= p < |t.order| && t.order[p] == k;
      ValuesAfterOverwrite(t, p, u);
      var r := Put(t, k, u);
      BalanceSplitAt(t, p, a);
      BalanceSplitAt(r, p, a);
      assert Values(r)[..p] == vs[..p] && Values(r)[p + 1..] == vs[p + 1..];
    } else {
      ValuesAfterInsert(t, k, u);
      assert (vs + [u])[..|vs|] == vs;
    }
  }

  /** A deletion removes what `a` held under the key; a missing key changes nothing. */
  lemma BalanceAfterDelete(t: UtxoTable, k: string, a: Address)
    requires t.WellFormed()
    ensures Balance(Delete(t, k), a) == Balance(t, a) - Held(t, k, a)
  {
    if k in t.entries {
      var vs := Values(t);
      var p :| 0 <= p < |t.order| && t.order[p] == k;
      ValuesAfterDelete(t, p);
      BalanceSplitAt(t, p, a);
      SumSharesConcat(vs[..p], vs[p + 1..], a);
    }
  }

  // ---------------------------------------------------------------------------
  // Wallets

  datatype Wallet = Wallet(priv: string, pub: string, address: Address)

  /** The deterministic stub key pair of `create_wallet`. */
  function DeriveWallet(rt: Runtime, name: string): (w: Wallet)
    ensures IsHexString(w.priv) && IsHexString(w.pub) && IsHexString(w.address.hash)
  {
    var priv := HexDigest(rt, name + "_priv");
    var pub := HexDigest(rt, priv + "_pub");
    Wallet(priv, pub, AddressFromPublicKey(rt, pub))
  }

  /** Two names get the same wallet exactly when their private-key digests agree. */
  lemma DeriveWalletAgrees(rt: Runtime, n1: string, n2: string)
    ensures DeriveWallet(rt, n1) == DeriveWallet(rt, n2) <==> rt.sha256(n1 + "_priv") == rt.sha256(n2 + "_priv")
  {
    HexDigestAgreesWithDigest(rt, n1 + "_priv", n2 + "_priv");
  }

  class WalletService {
    var wallets: map<string, Wallet>

    constructor ()
      ensures wallets == map[]
    {
      wallets := map[];
    }

    /** `create_wallet`: stores and returns the wallet derived from the name,
        replacing an earlier wallet of the same name. */
    method CreateWallet(rt: Runtime, name: string) returns (w: Wallet)
      modifies this
      ensures w == DeriveWallet(rt, name)
      ensures wallets == old(wallets)[name := w]
    {
      var priv := HexDigest(rt, name + "_priv");
      var pub := HexDigest(rt, priv + "_pub");
      var address := AddressFromPublicKey(rt, pub);
      wallets := wallets[name := Wallet(priv, pub, address)];
      w := wallets[name];
    }

    /** `get_balance`: the amounts of the UTXOs the address owns, summed. */
    function GetBalance(address: Address, repo: InMemoryLedgerRepository): (r: int)
      requires repo.Valid()
      reads repo
      ensures r == Balance(repo.Table(), address)
    {
      OwnedSumIsSumShares(repo.AllUtxos(), address);
      SumAmounts(OwnedBy(repo.AllUtxos(), address))
    }
  }

  // ---------------------------------------------------------------------------
  // Coin selection

  /** First-fit selection over the sender's UTXOs in store order: the length of
      the shortest non-empty prefix whose total reaches `required`, or, when
      there is none, the total of all of them. */
  function SelectCoins(owned: seq<Utxo>, required: int): (r: Result<nat, int>)
    ensures r.Success? ==> 1 <= r.value <= |owned| && SumAmounts(owned[..r.value]) >= required
    ensures r.Success? ==> forall k :: 1 <= k < r.value ==> SumAmounts(owned[..k]) < required
    ensures r.Failure? <==> forall k :: 1 <= k <= |owned| ==> SumAmounts(owned[..k]) < required
    ensures r.Failure? ==> r.error == SumAmounts(owned)
  {
    FirstFitFrom(owned, required, 0)
  }

  /** The search from prefix length `n` on, every shorter prefix falling short. */
  function FirstFitFrom(owned: seq<Utxo>, required: int, n: nat): (r: Result<nat, int>)
    requires n <= |owned|
    requires forall k :: 1 <= k <= n ==> SumAmounts(owned[..k]) < required
    ensures r.Success? ==> n < r.value <= |owned| && SumAmounts(owned[..r.value]) >= required
    ensures r.Success? ==> forall k :: 1 <= k < r.value ==> SumAmounts(owned[..k]) < required
    ensures r.Failure? <==> forall k :: 1 <= k <= |owned| ==> SumAmounts(owned[..k]) < required
    ensures r.Failure? ==> r.error == SumAmounts(owned)
    decreases |owned| - n
  {
    if n == |owned| then
      assert owned[..n] == owned;
      Failure(SumAmounts(owned))
    else if SumAmounts(owned[..n + 1]) >= required then Success(n + 1)
    else FirstFitFrom(owned, required, n + 1)
  }

  /** The inputs spending a list of UTXOs, one per UTXO, in order. */
  function InputsFor(us: seq<Utxo>): (ins: seq<TxIn>)
    ensures |ins| == |us|
    ensures forall i :: 0 <= i < |us| ==> ins[i] == TxIn(us[i].txId, us[i].outputIndex, None)
  {
    seq(|us|, i requires 0 <= i < |us| => TxIn(us[i].txId, us[i].outputIndex, None))
  }

  /** With no UTXOs at all the selection fails with nothing available. */
  lemma SelectNothing(required: int)
    ensures SelectCoins([], required) == Failure(0)
  {
  }

  // ---------------------------------------------------------------------------
  // Signing

  /** The signatures `sign_transaction` writes: one per input index, all equal. */
  function SignatureMap(n: nat, sig: Bytes): (m: map<int, Bytes>)
    ensures forall i :: i in m <==> 0 <= i < n
    ensures forall i :: i in m ==> m[i] == sig
  {
    if n == 0 then map[] else SignatureMap(n - 1, sig)[n - 1 := sig]
  }

  /** After signing every input over `h` with `priv`, checking over `h` succeeds
      exactly when the lookup finds, for every input, a secret whose signature
      is the same. */
  lemma SignedVerifiesIff(rt: Runtime, inputs: seq<TxIn>, prior: map<int, Bytes>, priv: string,
                          keyLookup: TxIn -> Option<string>, h: string)
    ensures AllInputsSigned(rt, inputs, prior + SignatureMap(|inputs|, Sign(rt, priv, h)), keyLookup, h)
      <==>
      forall i :: 0 <= i < |inputs| ==> keyLookup(inputs[i]).Some? && Sign(rt, keyLookup(inputs[i]).value, h) == Sign(rt, priv, h)
  {
    var sigs := prior + SignatureMap(|inputs|, Sign(rt, priv, h));
    assert forall i :: 0 <= i < |inputs| ==> i in sigs && sigs[i] == Sign(rt, priv, h);
  }

  /** The sign-then-verify round trip: when the lookup returns the signing secret
      for every input, the signed transaction verifies. */
  lemma SignedTransactionVerifies(rt: Runtime, inputs: seq<TxIn>, outputs: seq<TxOut>, prior: map<int, Bytes>,
                                  priv: string, keyLookup: TxIn -> Option<string>)
    requires forall i :: 0 <= i < |inputs| ==> keyLookup(inputs[i]) == Some(priv)
    ensures SignaturesValid(rt, inputs, outputs, prior + SignatureMap(|inputs|, Sign(rt, priv, TxHash(rt, inputs, outputs))), keyLookup)
  {
    SignedVerifiesIff(rt, inputs, prior, priv, keyLookup, TxHash(rt, inputs, outputs));
  }

  // ---------------------------------------------------------------------------
  // UTXO replay

  /** The UTXO `mine_block` records for output `index` of the transaction `txId`. */
  function NewUtxo(txId: string, index: int, out: TxOut): Utxo
  {
    Utxo(txId, index, out.amount, out.address, None)
  }

  /** The keys `remove_utxo` is called with for a list of inputs. */
  function InputKeys(inputs: seq<TxIn>): set<string>
  {
    set i | 0 <= i < |inputs| :: inputs[i].ReferenceKey()
  }

  /** The keys of a list of inputs are those of all but the last, plus the last's. */
  lemma InputKeysSnoc(inputs: seq<TxIn>)
    requires |inputs| > 0
    ensures InputKeys(inputs) == InputKeys(inputs[..|inputs| - 1]) + {inputs[|inputs| - 1].ReferenceKey()}
  {
    var n := |inputs| - 1;
    assert forall i :: 0 <= i < n ==> inputs[..n][i] == inputs[i];
  }

  /** The entries `add_utxo` writes for a list of outputs, later indices last. */
  function OutputEntries(txId: string, outputs: seq<TxOut>): map<string, Utxo>
  {
    if |outputs| == 0 then map[]
    else
      var n := |outputs| - 1;
      OutputEntries(txId, outputs[..n])[UtxoKey(txId, n) := NewUtxo(txId, n, outputs[n])]
  }

  /** Output `j` is filed under `txId:j`. */
  lemma {:induction false} OutputEntryAt(txId: string, outputs: seq<TxOut>, j: int)
    requires 0 <= j < |outputs|
    ensures UtxoKey(txId, j) in OutputEntries(txId, outputs)
    ensures OutputEntries(txId, outputs)[UtxoKey(txId, j)] == NewUtxo(txId, j, outputs[j])
    decreases |outputs|
  {
    var n := |outputs| - 1;
    if j < n {
      var init := outputs[..n];
      OutputEntryAt(txId, init, j);
      UtxoKeySeparatesIndices(txId, j, n);
      assert init[j] == outputs[j];
    }
  }

  /** Nothing but the outputs' keys is written. */
  lemma {:induction false} OutputEntriesOnly(txId: string, outputs: seq<TxOut>, k: string)
    requires k in OutputEntries(txId, outputs)
    ensures exists j :: 0 <= j < |outputs| && k == UtxoKey(txId, j)
    decreases |outputs|
  {
    var n := |outputs| - 1;
    if k != UtxoKey(txId, n) {
      OutputEntriesOnly(txId, outputs[..n], k);
    }
  }

  /** The inner `remove_utxo` loop: every input's reference key is deleted. */
  function SpendAll(t: UtxoTable, inputs: seq<TxIn>): (r: UtxoTable)
    ensures t.WellFormed() ==> r.WellFormed()
    ensures r.entries == t.entries - InputKeys(inputs)
  {
    if |inputs| == 0 then t
    else
      var n := |inputs| - 1;
      InputKeysSnoc(inputs);
      Delete(SpendAll(t, inputs[..n]), inputs[n].ReferenceKey())
  }

  /** The inner `add_utxo` loop: output `j` is upserted under `txId:j`. */
  function CreateAll(t: UtxoTable, txId: string, outputs: seq<TxOut>): (r: UtxoTable)
    ensures t.WellFormed() ==> r.WellFormed()
    ensures r.entries == t.entries + OutputEntries(txId, outputs)
  {
    if |outputs| == 0 then t
    else
      var n := |outputs| - 1;
      Put(CreateAll(t, txId, outputs[..n]), UtxoKey(txId, n), NewUtxo(txId, n, outputs[n]))
  }

  /** One transaction's delta: its inputs are spent, then its outputs created
      under its id as an f-string prints it. */
  function ApplyTx(t: UtxoTable, body: TxBody): (r: UtxoTable)
    ensures t.WellFormed() ==> r.WellFormed()
    ensures r.entries == (t.entries - InputKeys(body.inputs)) + OutputEntries(ShowOptional(body.txId), body.outputs)
  {
    CreateAll(SpendAll(t, body.inputs), ShowOptional(body.txId), body.outputs)
  }

  /** The deltas of a list of transactions, applied in list order. */
  function ApplyTxs(t: UtxoTable, bodies: seq<TxBody>): (r: UtxoTable)
    ensures t.WellFormed() ==> r.WellFormed()
  {
    if |bodies| == 0 then t else ApplyTx(ApplyTxs(t, bodies[..|bodies| - 1]), bodies[|bodies| - 1])
  }

  /** After one transaction: each of its outputs is live under its key; a spent
      key that no output reuses is gone; every other key is untouched. */
  lemma ApplyTxEffect(t: UtxoTable, body: TxBody, k: string)
    ensures var r, id := ApplyTx(t, body), ShowOptional(body.txId);
      && (forall j :: 0 <= j < |body.outputs| ==> UtxoKey(id, j) in r.entries && r.entries[UtxoKey(id, j)] == NewUtxo(id, j, body.outputs[j]))
      && ((forall j :: 0 <= j < |body.outputs| ==> k != UtxoKey(id, j)) ==>
            (exists i :: 0 <= i < |body.inputs| && k == body.inputs[i].ReferenceKey()) ==> k !in r.entries)
      && ((forall j :: 0 <= j < |body.outputs| ==> k != UtxoKey(id, j)) ==>
            (forall i :: 0 <= i < |body.inputs| ==> k != body.inputs[i].ReferenceKey()) ==>
              (k in r.entries <==> k in t.entries) && (k in r.entries ==> r.entries[k] == t.entries[k]))
  {
    var id := ShowOptional(body.txId);
    forall j | 0 <= j < |body.outputs|
      ensures UtxoKey(id, j) in OutputEntries(id, body.outputs)
      ensures OutputEntries(id, body.outputs)[UtxoKey(id, j)] == NewUtxo(id, j, body.outputs[j])
    {
      OutputEntryAt(id, body.outputs, j);
    }
    if k in OutputEntries(id, body.outputs) {
      OutputEntriesOnly(id, body.outputs, k);
    }
  }

  // ---------------------------------------------------------------------------
  // Coin selection, signing and verification

  /** A prefix meeting the target after shorter ones fell short is the selection. */
  lemma SelectCoinsAt(owned: seq<Utxo>, required: int, n: nat)
    requires 1 <= n <= |owned| && SumAmounts(owned[..n]) >= required
    requires forall k :: 1 <= k < n ==> SumAmounts(owned[..k]) < required
    ensures SelectCoins(owned, required) == Success(n)
  {
  }

  /** The loop of `create_transaction`: one input per UTXO taken, in order,
      stopping as soon as the running total reaches `required`. */
  method SelectInputs(owned: seq<Utxo>, required: int) returns (inputs: seq<TxIn>, total: int)
    ensures match SelectCoins(owned, required)
      case Success(n) => inputs == InputsFor(owned[..n]) && total == SumAmounts(owned[..n]) && total >= required
      case Failure(available) => inputs == InputsFor(owned) && total == available && (|owned| >= 1 ==> total < required)
  {
    inputs, total := [], 0;
    var i := 0;
    while i < |owned|
      invariant 0 <= i <= |owned|
      invariant inputs == InputsFor(owned[..i])
      invariant total == SumAmounts(owned[..i])
      invariant forall k :: 1 <= k <= i ==> SumAmounts(owned[..k]) < required
    {
      assert owned[..i + 1][..i] == owned[..i];
      inputs := inputs + [TxIn(owned[i].txId, owned[i].outputIndex, None)];
      total := total + owned[i].amount;
      i := i + 1;
      if total >= required {
        SelectCoinsAt(owned, required, i);
        return;
      }
    }
    assert owned[..i] == owned;
  }

  class TransactionService {
    const repo: InMemoryLedgerRepository

    constructor (repo: InMemoryLedgerRepository)
      ensures this.repo == repo
    {
      this.repo := repo;
    }

    /** `create_transaction`: first-fit selection over the sender's UTXOs in
        store order, an insufficient-funds error when they fall short, and an
        unsigned transaction whose id is its own hash. */
    method CreateTransaction(rt: Runtime, fromAddress: Address, outputs: seq<TxOut>) returns (r: Result<Transaction, LedgerError>)
      requires repo.Valid()
      ensures var owned, required := OwnedBy(repo.AllUtxos(), fromAddress), SumOutputs(outputs);
        && (|owned| == 0 ==> r == Failure(InsufficientFunds(fromAddress, required, 0)))
        && match SelectCoins(owned, required)
           case Failure(available) =>
             r == Failure(InsufficientFunds(fromAddress, required, available))
           case Success(n) =>
             && r.Success? && fresh(r.value)
             && r.value.inputs == InputsFor(owned[..n]) && r.value.outputs == outputs
             && r.value.signatures == map[] && r.value.txId == Some(r.value.Hash(rt))
    {
      var owned := OwnedBy(repo.AllUtxos(), fromAddress);
      var required := SumOutputs(outputs);
      if |owned| == 0 {
        return Failure(InsufficientFunds(fromAddress, required, 0));
      }
      var inputs, total := SelectInputs(owned, required);
      if total < required {
        return Failure(InsufficientFunds(fromAddress, required, total));
      }
      var tx := new Transaction(None, inputs, outputs);
      var h := tx.CalculateHash(rt);
      tx.txId := Some(h);
      r := Success(tx);
    }

    /** `sign_transaction`: every input index gets the digest of the secret
        followed by the transaction hash, computed before any signature is set. */
    method SignTransaction(rt: Runtime, walletPriv: string, tx: Transaction)
      modifies tx
      ensures tx.signatures == old(tx.signatures) + SignatureMap(|tx.inputs|, Sign(rt, walletPriv, old(tx.Hash(rt))))
      ensures tx.inputs == old(tx.inputs) && tx.outputs == old(tx.outputs) && tx.txId == old(tx.txId)
      ensures tx.Hash(rt) == old(tx.Hash(rt))
    {
      var txHash := tx.CalculateHash(rt);
      for idx := 0 to |tx.inputs|
        invariant tx.inputs == old(tx.inputs) && tx.outputs == old(tx.outputs) && tx.txId == old(tx.txId)
        invariant tx.signatures == old(tx.signatures) + SignatureMap(idx, Sign(rt, walletPriv, txHash))
      {
        var sig := Sign(rt, walletPriv, txHash);
        tx.AddSignature(idx, sig);
      }
    }

    /** `verify_transaction`: `Transaction.verify` with the given lookup. */
    method VerifyTransaction(rt: Runtime, tx: Transaction, keyLookup: TxIn -> Option<string>) returns (ok: bool)
      ensures ok == SignaturesValid(rt, tx.inputs, tx.outputs, tx.signatures, keyLookup)
    {
      ok := tx.Verify(rt, keyLookup);
    }
  }

  // ---------------------------------------------------------------------------
  // Appending blocks

  /** The previous hash a new block links to, as `mine_block` and `stake_block`
      compute it from `get_latest_block`: the tip's header hash, or 64 zeros for
      an empty chain. */
  function TipHash(rt: Runtime, repo: InMemoryLedgerRepository): (h: string)
    reads repo, if |repo.blocks| == 0 then {} else {repo.blocks[|repo.blocks| - 1], repo.blocks[|repo.blocks| - 1].header}
    ensures |repo.blocks| == 0 ==> h == GenesisPrevHash
    ensures |repo.blocks| > 0 ==> h == repo.blocks[|repo.blocks| - 1].header.CalculateHash(rt)
  {
    var prev := repo.GetLatestBlock();
    if prev.Some? then prev.value.header.CalculateHash(rt) else GenesisPrevHash
  }

  /** The `remove_utxo` loop over one transaction's inputs. */
  method SpendInputs(repo: InMemoryLedgerRepository, inputs: seq<TxIn>)
    requires repo.Valid()
    modifies repo
    ensures repo.Valid() && repo.blocks == old(repo.blocks)
    ensures repo.Table() == SpendAll(old(repo.Table()), inputs)
  {
    ghost var t0 := repo.Table();
    for j := 0 to |inputs|
      invariant repo.Valid() && repo.blocks == old(repo.blocks)
      invariant repo.Table() == SpendAll(t0, inputs[..j])
    {
      assert inputs[..j + 1][..j] == inputs[..j];
      repo.RemoveUtxo(UtxoKey(inputs[j].prevTxId, inputs[j].outputIndex));
    }
    assert inputs[..|inputs|] == inputs;
  }

  /** The `add_utxo` loop over one transaction's outputs. */
  method CreateOutputs(repo: InMemoryLedgerRepository, txId: Option<string>, outputs: seq<TxOut>)
    requires repo.Valid()
    modifies repo
    ensures repo.Valid() && repo.blocks == old(repo.blocks)
    ensures repo.Table() == CreateAll(old(repo.Table()), ShowOptional(txId), outputs)
  {
    ghost var t0 := repo.Table();
    var id := ShowOptional(txId);
    for j := 0 to |outputs|
      invariant repo.Valid() && repo.blocks == old(repo.blocks)
      invariant repo.Table() == CreateAll(t0, id, outputs[..j])
    {
      assert outputs[..j + 1][..j] == outputs[..j];
      repo.AddUtxo(Utxo(id, j, outputs[j].amount, outputs[j].address, None));
    }
    assert outputs[..|outputs|] == outputs;
  }

  /** The replay loop of `mine_block` and `stake_block`: each transaction's
      inputs are spent, then its outputs created, in list order. */
  method ReplayDeltas(repo: InMemoryLedgerRepository, transactions: seq<Transaction>)
    requires repo.Valid()
    modifies repo
    ensures repo.Valid() && repo.blocks == old(repo.blocks)
    ensures repo.Table() == ApplyTxs(old(repo.Table()), Bodies(transactions))
  {
    ghost var t0, bodies := repo.Table(), Bodies(transactions);
    for k := 0 to |transactions|
      invariant repo.Valid() && repo.blocks == old(repo.blocks)
      invariant repo.Table() == ApplyTxs(t0, bodies[..k])
    {
      var tx := transactions[k];
      assert bodies[..k + 1][..k] == bodies[..k];
      BodyAt(transactions, k);
      assert bodies[k] == TxBody(tx.txId, tx.inputs, tx.outputs);
      SpendInputs(repo, tx.inputs);
      CreateOutputs(repo, tx.txId, tx.outputs);
    }
    assert bodies[..|transactions|] == bodies;
  }

  /** The last steps of `mine_block` and `stake_block`: the block is appended,
      then its transactions' deltas are replayed. */
  method AppendAndReplay(repo: InMemoryLedgerRepository, block: Block, transactions: seq<Transaction>)
    requires repo.Valid()
    modifies repo
    ensures repo.blocks == old(repo.blocks) + [block]
    ensures repo.Valid() && repo.Table() == ApplyTxs(old(repo.Table()), Bodies(transactions))
  {
    repo.AddBlock(block);
    ReplayDeltas(repo, transactions);
  }

  /** The header-building and sealing steps of `mine_block`. */
  method SealedBlock(rt: Runtime, pow: ProofOfWorkAdapter, prevHash: string, now: int, validator: string,
                     transactions: seq<Transaction>) returns (block: Block)
    requires exists n: nat :: Seals(rt, prevHash, MerkleRoot(rt, TxHashes(rt, transactions)), now, pow.difficulty, n)
    ensures fresh(block) && fresh(block.header)
    ensures Assembled(rt, block, prevHash, now, pow.difficulty, validator, transactions)
    ensures block.header.nonce >= 0
    ensures Seals(rt, prevHash, block.header.merkleRoot, now, pow.difficulty, block.header.nonce)
    ensures forall m :: 0 <= m < block.header.nonce ==> !Seals(rt, prevHash, block.header.merkleRoot, now, pow.difficulty, m)
  {
    ghost var root := MerkleRoot(rt, TxHashes(rt, transactions));
    block := NewBlock(rt, prevHash, now, pow.difficulty, validator, transactions);
    assert block.header.prevHash == prevHash && block.header.merkleRoot == root && block.header.timestamp == now;
    var blockHash := pow.Mine(rt, block.header);
  }

  class MiningService {
    const repo: InMemoryLedgerRepository
    const pow: ProofOfWorkAdapter

    constructor (repo: InMemoryLedgerRepository, pow: ProofOfWorkAdapter)
      ensures this.repo == repo && this.pow == pow
    {
      this.repo := repo;
      this.pow := pow;
    }

    /** `mine_block`: links to the tip, commits to the transactions, seals with
        the least working nonce, appends the block and replays its deltas. */
    method MineBlock(rt: Runtime, transactions: seq<Transaction>, validator: string, now: int) returns (block: Block)
      requires repo.Valid()
      requires exists n: nat :: Seals(rt, TipHash(rt, repo), MerkleRoot(rt, TxHashes(rt, transactions)), now, pow.difficulty, n)
      modifies repo
      ensures fresh(block) && fresh(block.header)
      ensures repo.blocks == old(repo.blocks) + [block]
      ensures Assembled(rt, block, old(TipHash(rt, repo)), now, pow.difficulty, validator, transactions)
      ensures block.header.nonce >= 0
      ensures Seals(rt, block.header.prevHash, block.header.merkleRoot, now, pow.difficulty, block.header.nonce)
      ensures forall m :: 0 <= m < block.header.nonce ==> !Seals(rt, block.header.prevHash, block.header.merkleRoot, now, pow.difficulty, m)
      ensures repo.Valid() && repo.Table() == ApplyTxs(old(repo.Table()), Bodies(transactions))
    {
      var prevHash := TipHash(rt, repo);
      block := SealedBlock(rt, pow, prevHash, now, validator, transactions);
      AppendAndReplay(repo, block, transactions);
    }
  }

  class StakingService {
    const repo: InMemoryLedgerRepository
    const pos: MockProofOfStakeAdapter

    constructor (repo: InMemoryLedgerRepository, pos: MockProofOfStakeAdapter)
      ensures this.repo == repo && this.pos == pos
    {
      this.repo := repo;
      this.pos := pos;
    }

    /** `stake_block`: as `mine_block` with difficulty 0 and no nonce search. */
    method StakeBlock(rt: Runtime, transactions: seq<Transaction>, validator: string, now: int) returns (block: Block)
      requires repo.Valid()
      modifies repo
      ensures fresh(block) && fresh(block.header)
      ensures repo.blocks == old(repo.blocks) + [block]
      ensures Assembled(rt, block, old(TipHash(rt, repo)), now, 0, validator, transactions)
      ensures block.header.nonce == 0
      ensures repo.Valid() && repo.Table() == ApplyTxs(old(repo.Table()), Bodies(transactions))
    {
      var prevHash := TipHash(rt, repo);
      block := NewBlock(rt, prevHash, now, 0, validator, transactions);
      AppendAndReplay(repo, block, transactions);
    }
  }
}
