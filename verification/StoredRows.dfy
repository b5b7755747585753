/** What the row of an output holds, field by field, and that every row is the row of its output. */
module StoredRows {
  import opened Tables
  import opened Ledger
  import opened Rounds
  import opened Store
  import opened OutputIndex
  import opened Runs
  import opened Filing
  import opened Resolution

  /** One storage operation: the new row, at the end of the rows of the output's amount, has the key
      or stealth address, the unlock time and the commitment that were handed in. */
  lemma AddOutputHolds(o: Outputs, height: nat, hash: Hash, out: TxOut, i: nat, unlock: nat, commitment: Option<Key>)
    requires AddOutput(o, height, hash, out, i, unlock, commitment).Ok?
    ensures var r := AddOutput(o, height, hash, out, i, unlock, commitment);
            var b := Bucket(r.state, out.amount);
            && |b| == r.value + 1 && b[..r.value] == Bucket(o, out.amount) && b[r.value].key == r.value
            && var row := b[r.value].value;
               && row.unlockTime == unlock && row.height == height
               && (out.target.ToKeyOut? ==>
                     && row.pubkey == out.target.key && row.token == 0
                     && (out.amount == 0 ==> commitment.Some?)
                     && row.commitment == if out.amount == 0 then commitment else None)
               && (out.target.Zyphora? ==>
                     && row.pubkey == out.target.stealth && row.token == out.target.token
                     && row.commitment == Some(out.target.commitment))
               && r.state.outputTxs == o.outputTxs + [Row(row.outputId, OutTx(hash, i))]
  {
  }

  /** Output i of a filed transaction: its row holds it, and the global table leads back to it. */
  ghost predicate FoundAt(c: Core, fs: seq<Filed>, t: nat, i: nat)
    requires t < |fs| && i < |fs[t].tx.vout|
  {
    var b := Bucket(c.outs, AmountOf(fs[t].tx, i));
    && t < |c.txOutputs| && i < |c.txOutputs[t].value| && c.txOutputs[t].value[i] < |b|
    && var row := b[c.txOutputs[t].value[i]].value;
       && Holding(row, fs[t].tx, i, fs[t].height)
       && row.outputId < |c.outs.outputTxs| && c.outs.outputTxs[row.outputId].value == OutTx(fs[t].hash, i)
  }

  lemma HoldsFinds(c: Core, fs: seq<Filed>, t: nat, i: nat)
    requires Holds(c, fs) && t < |fs| && i < |fs[t].tx.vout|
    ensures FoundAt(c, fs, t, i)
  {
    assert ListHolds(c, t, fs[t]);
    assert ResolvesAt(c.outs, fs[t], i, c.txOutputs[t].value[i]);
  }

  /** Wherever the store is the one its blocks build: every output of every surviving transaction is
      found through the index list and held as it was, and every row there is holds an output of a
      surviving transaction. */
  lemma BuiltStores(s: State)
    requires Built(s)
    ensures var c, fs := s.store.core, FiledChain(s.chain);
            && (forall t, i :: 0 <= t < |fs| && 0 <= i < |fs[t].tx.vout| ==> FoundAt(c, fs, t, i))
            && forall a, k :: 0 <= k < |Bucket(c.outs, a)| ==> RowHolds(c, fs, a, k)
  {
    var c, fs := s.store.core, FiledChain(s.chain);
    BuiltHolds(s);
    forall t, i | 0 <= t < |fs| && 0 <= i < |fs[t].tx.vout| ensures FoundAt(c, fs, t, i) { HoldsFinds(c, fs, t, i); }
    forall a, k | 0 <= k < |Bucket(c.outs, a)| ensures RowHolds(c, fs, a, k) { RowIsHeld(c, fs, a, k); }
  }

  /** Row k of amount a holds an output of one of these. */
  ghost predicate RowHolds(c: Core, fs: seq<Filed>, a: Amount, k: nat)
    requires k < |Bucket(c.outs, a)|
  {
    exists t: nat, i: nat :: RowIs(c, fs, a, k, t, i)
  }

  predicate RowIs(c: Core, fs: seq<Filed>, a: Amount, k: nat, t: nat, i: nat)
    requires k < |Bucket(c.outs, a)|
  {
    && t < |fs| && i < |fs[t].tx.vout| && AmountOf(fs[t].tx, i) == a
    && Holding(Bucket(c.outs, a)[k].value, fs[t].tx, i, fs[t].height)
    && t < |c.txOutputs| && i < |c.txOutputs[t].value| && c.txOutputs[t].value[i] == k
  }

  lemma RowIsHeld(c: Core, fs: seq<Filed>, a: Amount, k: nat)
    requires Holds(c, fs) && k < |Bucket(c.outs, a)|
    ensures RowHolds(c, fs, a, k)
  {
    assert RowOwned(c, fs, a, k);
    var made := c.outs.outputTxs[Bucket(c.outs, a)[k].value.outputId].value;
    var t, i := c.txIndices[made.txHash].txId, made.localIndex;
    HoldsFinds(c, fs, t, i);
    assert RowIs(c, fs, a, k, t, i);
  }
}
