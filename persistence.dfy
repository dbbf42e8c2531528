/** The in-memory ledger store of src/adapters/persistence.py: an append-only
    list of blocks and the UTXO dictionary keyed by `"tx_id:index"`. */
module Persistence {
  import opened Common
  import opened Text
  import opened Model

  /** The key under which `add_utxo` and `get_utxo` file an output. It is the
      reference key of an input spending that output. */
  function UtxoKey(txId: string, index: int): (k: string)
    ensures k == TxIn(txId, index, None).ReferenceKey()
  {
    txId + ":" + IntToDecimal(index)
  }

  /** Two outputs of the same transaction never share a key. */
  lemma UtxoKeySeparatesIndices(txId: string, i: int, j: int)
    ensures UtxoKey(txId, i) == UtxoKey(txId, j) <==> i == j
  {
    var ki, kj := UtxoKey(txId, i), UtxoKey(txId, j);
    ReferenceKeyLayout(TxIn(txId, i, None));
    ReferenceKeyLayout(TxIn(txId, j, None));
    if ki == kj {
      assert IntToDecimal(i) == ki[|txId| + 1..] == kj[|txId| + 1..] == IntToDecimal(j);
      IntToDecimalInjective(i, j);
    }
  }

  // ---------------------------------------------------------------------------
  // The UTXO dictionary as a value

  /** A Python dict: its entries, and its live keys in first-insertion order
      (the order `values()` follows). */
  datatype UtxoTable = UtxoTable(order: seq<string>, entries: map<string, Utxo>)
  {
    /** The order lists every live key exactly once. */
    ghost predicate WellFormed()
    {
      Distinct(order) && forall k :: k in order <==> k in entries
    }
  }

  const EmptyTable := UtxoTable([], map[])

  /** The key list with `k` taken out. */
  function Without(s: seq<string>, k: string): (r: seq<string>)
    ensures forall x :: x in r <==> x in s && x != k
    ensures Distinct(s) ==> Distinct(r)
    ensures k !in s ==> r == s
  {
    if |s| == 0 then []
    else if s[0] == k then Without(s[1..], k)
    else
      var rest := Without(s[1..], k);
      assert Distinct(s) ==> Distinct(s[1..]) && s[0] !in s[1..];
      [s[0]] + rest
  }

  lemma DistinctTail(s: seq<string>)
    requires Distinct(s) && |s| > 0
    ensures Distinct(s[1..]) && s[0] !in s[1..]
  {
  }

  /** In a list without repetitions, taking out the key at `p` closes the gap. */
  lemma {:induction false} WithoutAt(s: seq<string>, p: int)
    requires Distinct(s) && 0 <= p < |s|
    ensures Without(s, s[p]) == s[..p] + s[p + 1..]
  {
    var tail := s[1..];
    DistinctTail(s);
    if p == 0 {
      assert Without(s, s[0]) == Without(tail, s[0]) == tail;
      assert s[..0] + s[1..] == tail;
    } else {
      assert s[0] != s[p];
      assert tail[p - 1] == s[p];
      WithoutAt(tail, p - 1);
      var front, back := tail[..p - 1], tail[p..];
      assert Without(s, s[p]) == [s[0]] + (front + back);
      assert [s[0]] + (front + back) == ([s[0]] + front) + back;
      assert [s[0]] + front == s[..p];
      assert back == s[p + 1..];
    }
  }

  /** `utxo_set[key] = utxo`: an upsert. A new key goes to the end of the order;
      an existing key keeps its place. */
  function Put(t: UtxoTable, k: string, u: Utxo): (r: UtxoTable)
    ensures r.entries == t.entries[k := u]
    ensures t.WellFormed() ==> r.WellFormed()
  {
    if k in t.entries then UtxoTable(t.order, t.entries[k := u])
    else UtxoTable(t.order + [k], t.entries[k := u])
  }

  /** `if key in utxo_set: del utxo_set[key]`: a missing key is no error. */
  function Delete(t: UtxoTable, k: string): (r: UtxoTable)
    ensures r.entries == t.entries - {k}
    ensures t.WellFormed() ==> r.WellFormed()
  {
    if k in t.entries then UtxoTable(Without(t.order, k), t.entries - {k}) else t
  }

  /** Deleting a key twice is deleting it once. */
  lemma DeleteIdempotent(t: UtxoTable, k: string)
    ensures Delete(Delete(t, k), k) == Delete(t, k)
  {
  }

  /** `list(utxo_set.values())`. */
  function Values(t: UtxoTable): (vs: seq<Utxo>)
    requires t.WellFormed()
    ensures |vs| == |t.order|
    ensures forall i :: 0 <= i < |t.order| ==> vs[i] == t.entries[t.order[i]]
  {
    seq(|t.order|, i requires 0 <= i < |t.order| => t.entries[t.order[i]])
  }

  /** A list without repetitions has as many elements as its set. */
  lemma {:induction false} DistinctCardinality(s: seq<string>)
    requires Distinct(s)
    ensures |set x | x in s| == |s|
  {
    if |s| > 0 {
      assert Distinct(s[1..]);
      DistinctCardinality(s[1..]);
      assert (set x | x in s) == {s[0]} + (set x | x in s[1..]);
      assert s[0] !in (set x | x in s[1..]);
    }
  }

  /** The values list has one entry per live key and holds every live value. */
  lemma ValuesOnePerKey(t: UtxoTable)
    requires t.WellFormed()
    ensures |Values(t)| == |t.entries|
    ensures forall k :: k in t.entries ==> exists i :: 0 <= i < |t.order| && t.order[i] == k && Values(t)[i] == t.entries[k]
  {
    assert t.entries.Keys == set x | x in t.order;
    DistinctCardinality(t.order);
    forall k | k in t.entries
      ensures exists i :: 0 <= i < |t.order| && t.order[i] == k && Values(t)[i] == t.entries[k]
    {
      var i :| 0 <= i < |t.order| && t.order[i] == k;
      assert Values(t)[i] == t.entries[k];
    }
  }

  /** Upserting a new key appends its value. */
  lemma ValuesAfterInsert(t: UtxoTable, k: string, u: Utxo)
    requires t.WellFormed() && k !in t.entries
    ensures Values(Put(t, k, u)) == Values(t) + [u]
  {
  }

  /** Upserting a live key overwrites its value in place. */
  lemma ValuesAfterOverwrite(t: UtxoTable, p: int, u: Utxo)
    requires t.WellFormed() && 0 <= p < |t.order|
    ensures Values(Put(t, t.order[p], u)) == Values(t)[p := u]
  {
  }

  /** Deleting a live key drops its value and keeps the others in order. */
  lemma ValuesAfterDelete(t: UtxoTable, p: int)
    requires t.WellFormed() && 0 <= p < |t.order|
    ensures Values(Delete(t, t.order[p])) == Values(t)[..p] + Values(t)[p + 1..]
  {
    var k := t.order[p];
    WithoutAt(t.order, p);
    var r := Delete(t, k);
    assert r.order == t.order[..p] + t.order[p + 1..];
    forall i | 0 <= i < |r.order| ensures Values(r)[i] == (Values(t)[..p] + Values(t)[p + 1..])[i] {
      if i < p {
        assert r.order[i] == t.order[i];
      } else {
        assert r.order[i] == t.order[i + 1];
      }
    }
  }

  // ---------------------------------------------------------------------------
  // The repository

  class InMemoryLedgerRepository {
    var blocks: seq<Block>
    var utxoSet: map<string, Utxo>
    /** The insertion order of the live keys of `utxoSet`. */
    var utxoOrder: seq<string>

    function Table(): UtxoTable
      reads this
    {
      UtxoTable(utxoOrder, utxoSet)
    }

    ghost predicate Valid()
      reads this
    {
      Table().WellFormed()
    }

    constructor ()
      ensures blocks == [] && Table() == EmptyTable
      ensures Valid()
    {
      blocks := [];
      utxoSet := map[];
      utxoOrder := [];
    }

    /** `get_block`: the block at that height, or `None` off either end. */
    function GetBlock(height: int): (r: Option<Block>)
      reads this
      ensures r.Some? <==> 0 <= height < |blocks|
      ensures r.Some? ==> r.value == blocks[height]
    {
      if 0 <= height < |blocks| then Some(blocks[height]) else None
    }

    /** `get_latest_block`: the tip, or `None` for an empty chain. */
    function GetLatestBlock(): (r: Option<Block>)
      reads this
      ensures r.None? <==> |blocks| == 0
      ensures r.Some? ==> r.value == blocks[|blocks| - 1] && GetBlock(|blocks| - 1) == r
    {
      if |blocks| == 0 then None else Some(blocks[|blocks| - 1])
    }

    /** `add_block`: appends at height `len(blocks)`. */
    method AddBlock(block: Block)
      modifies this
      ensures blocks == old(blocks) + [block]
      ensures GetBlock(|old(blocks)|) == Some(block) && GetLatestBlock() == Some(block)
      ensures Table() == old(Table())
    {
      blocks := blocks + [block];
    }

    /** `get_utxo`: a dictionary lookup under `"tx_id:index"`. */
    function GetUtxo(txId: string, index: int): (r: Option<Utxo>)
      reads this
      ensures r.Some? <==> UtxoKey(txId, index) in utxoSet
      ensures r.Some? ==> r.value == utxoSet[UtxoKey(txId, index)]
    {
      var key := UtxoKey(txId, index);
      if key in utxoSet then Some(utxoSet[key]) else None
    }

    /** `add_utxo`: upserts under the output's own key. */
    method AddUtxo(utxo: Utxo)
      requires Valid()
      modifies this
      ensures Valid()
      ensures Table() == Put(old(Table()), UtxoKey(utxo.txId, utxo.outputIndex), utxo)
      ensures GetUtxo(utxo.txId, utxo.outputIndex) == Some(utxo)
      ensures forall k :: k != UtxoKey(utxo.txId, utxo.outputIndex) ==>
        (k in utxoSet <==> k in old(utxoSet)) && (k in utxoSet ==> utxoSet[k] == old(utxoSet)[k])
      ensures blocks == old(blocks)
    {
      var key := UtxoKey(utxo.txId, utxo.outputIndex);
      if key !in utxoSet {
        utxoOrder := utxoOrder + [key];
      }
      utxoSet := utxoSet[key := utxo];
    }

    /** `remove_utxo`: deletes the key when present, and does nothing otherwise. */
    method RemoveUtxo(utxoKey: string)
      requires Valid()
      modifies this
      ensures Valid()
      ensures Table() == Delete(old(Table()), utxoKey)
      ensures utxoKey !in utxoSet
      ensures forall k :: k != utxoKey ==>
        (k in utxoSet <==> k in old(utxoSet)) && (k in utxoSet ==> utxoSet[k] == old(utxoSet)[k])
      ensures blocks == old(blocks)
    {
      if utxoKey in utxoSet {
        utxoSet := utxoSet - {utxoKey};
        utxoOrder := Without(utxoOrder, utxoKey);
      }
    }

    /** `all_utxos`: the live values, one per key, in insertion order. */
    function AllUtxos(): (r: seq<Utxo>)
      requires Valid()
      reads this
      ensures |r| == |utxoOrder| == |utxoSet|
      ensures forall i :: 0 <= i < |r| ==> utxoOrder[i] in utxoSet && r[i] == utxoSet[utxoOrder[i]]
    {
      ValuesOnePerKey(Table());
      Values(Table())
    }
  }
}
