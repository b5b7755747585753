/** Popping a block undoes adding it. */
module Undo {
  import opened Tables
  import opened Ledger
  import opened Rounds
  import opened Store
  import opened BlockOps

  /** Every input is of a supported kind, and addition and removal agree on the amount of every
      output. */
  predicate Agreeing(tx: Transaction) {
    && AllSupported(tx.vin)
    && forall i :: 0 <= i < |tx.vout| ==> FiledAmount(tx, i) == RemovedAmount(tx, i)
  }

  /** A Zyphora output that is filed under amount 0 carries a token id. */
  predicate HasTokens(tx: Transaction) {
    forall i :: 0 <= i < |tx.vout| ==> HasToken(tx, i)
  }

  /** What a transaction must look like for its removal to undo its addition. */
  predicate Undoable(tx: Transaction) { Agreeing(tx) && HasTokens(tx) }

  predicate HasToken(tx: Transaction, i: nat)
    requires i < |tx.vout|
  {
    IsZyphora(tx.vout[i]) && FiledAmount(tx, i) == 0 ==> tx.vout[i].target.token != NULL_TOKEN
  }

  predicate UndoableBlock(blk: Block, txs: seq<Transaction>) {
    Undoable(blk.minerTx) && forall i :: 0 <= i < |txs| ==> Undoable(txs[i])
  }

  // ----- outputs

  /** The commitment argument of output i. */
  function CommitmentFor(tx: Transaction, i: nat): Option<Key>
    requires i < |tx.vout|
  {
    if FiledAsCoinbase(tx) then Some(ZeroCommit(tx.vout[i].amount))
    else if tx.version >= V2_RINGCT && !IsZyphora(tx.vout[i]) && NativeRank(tx.vout, i) < |tx.outPk|
    then Some(tx.outPk[NativeRank(tx.vout, i)])
    else None
  }

  /** The output as it is filed, with the amount it is filed under. */
  function FiledOut(tx: Transaction, i: nat): TxOut
    requires i < |tx.vout|
  {
    tx.vout[i].(amount := FiledAmount(tx, i))
  }

  /** A round of the output loop that goes through stores the filed output. */
  lemma PlacerStores(o: Outputs, height: nat, hash: Hash, tx: Transaction, i: nat)
    requires i < |tx.vout| && Placer(height, hash, tx)(o, i).Ok?
    ensures UnlockTimeOf(tx, i).Some?
    ensures Placer(height, hash, tx)(o, i) ==
            AddOutput(o, height, hash, FiledOut(tx, i), i, UnlockTimeOf(tx, i).value, CommitmentFor(tx, i))
  {
  }

  lemma AddOutputKeepsCanonical(o: Outputs, height: nat, hash: Hash, out: TxOut, i: nat,
                                unlock: nat, commitment: Option<Key>)
    requires Canonical(o)
    ensures Canonical(AddOutput(o, height, hash, out, i, unlock, commitment).state)
  {
  }

  /** The tables p are o with one more row under amount a, and its height entry if a is 0. */
  ghost predicate Appended(o: Outputs, p: Outputs, a: Amount, row: OutKey, made: OutTx) {
    var entry := (row.height, |Bucket(o, a)|);
    && p.outputTxs == o.outputTxs + [Row(row.outputId, made)]
    && p.buckets == PutBucket(o.buckets, a, Bucket(o, a) + [Row(|Bucket(o, a)|, row)])
    && (if a == 0 && row.token != NULL_TOKEN then p.zyHeights == o.zyHeights + {entry} && entry !in o.zyHeights
        else p.zyHeights == o.zyHeights)
    && (if a == 0 && row.token == NULL_TOKEN
        then p.nativeHeights == o.nativeHeights + {entry} && entry !in o.nativeHeights
        else p.nativeHeights == o.nativeHeights)
  }

  lemma AppendedUndone(o: Outputs, p: Outputs, a: Amount, row: OutKey, made: OutTx)
    requires Canonical(o) && Appended(o, p, a, row, made)
    ensures RemoveOutput(p, a, |Bucket(o, a)|) == Ok(o, ())
  {
    var b := Bucket(o, a);
    AppendDelete(b, Row(|b|, row));
    AppendDelete(o.outputTxs, Row(row.outputId, made));
    assert Bucket(p, a) == b + [Row(|b|, row)];
    assert PutBucket(p.buckets, a, b) == o.buckets;
    var entry := (row.height, |b|);
    assert entry !in o.zyHeights ==> o.zyHeights + {entry} - {entry} == o.zyHeights;
    assert entry !in o.nativeHeights ==> o.nativeHeights + {entry} - {entry} == o.nativeHeights;
  }

  lemma AddOutputUndone(o: Outputs, height: nat, hash: Hash, out: TxOut, i: nat,
                        unlock: nat, commitment: Option<Key>)
    requires Canonical(o)
    requires IsZyphora(out) && out.amount == 0 ==> out.target.token != NULL_TOKEN
    requires AddOutput(o, height, hash, out, i, unlock, commitment).Ok?
    ensures var r := AddOutput(o, height, hash, out, i, unlock, commitment);
            RemoveOutput(r.state, out.amount, r.value) == Ok(o, ())
  {
    var r := AddOutput(o, height, hash, out, i, unlock, commitment);
    var row := OutKeyFor(out, NextKey(o.outputTxs), unlock, height, commitment);
    AppendedUndone(o, r.state, out.amount, row, OutTx(hash, i));
  }

  lemma OneOutputUndone(o: Outputs, height: nat, hash: Hash, tx: Transaction, indices: seq<nat>, i: nat)
    requires Canonical(o) && i < |tx.vout| && i < |indices|
    requires FiledAmount(tx, i) == RemovedAmount(tx, i) && HasToken(tx, i)
    requires Placer(height, hash, tx)(o, i).Ok? && Placer(height, hash, tx)(o, i).value == indices[i]
    ensures var r := Placer(height, hash, tx)(o, i);
            Canonical(r.state) && Remover(tx, indices)(r.state, i) == Ok(o, ())
  {
    PlacerStores(o, height, hash, tx, i);
    var out, unlock, commitment := FiledOut(tx, i), UnlockTimeOf(tx, i).value, CommitmentFor(tx, i);
    AddOutputUndone(o, height, hash, out, i, unlock, commitment);
    AddOutputKeepsCanonical(o, height, hash, out, i, unlock, commitment);
  }

  lemma OutputsUndone(o: Outputs, height: nat, hash: Hash, tx: Transaction)
    requires Canonical(o) && Undoable(tx) && AddOutputs(o, height, hash, tx).Ok?
    ensures var r := AddOutputs(o, height, hash, tx);
            && Canonical(r.state) && RemoveOutputs(r.state, tx, r.value).Ok?
            && RemoveOutputs(r.state, tx, r.value).state == o
  {
    var n := |tx.vout|;
    var place := Placer(height, hash, tx);
    EachPrefix(place, o, n, n);
    var indices := AddOutputs(o, height, hash, tx).value;
    var units := seq(n, _ => ());
    forall t, k | 0 <= k < n ensures UndoneAt(place, Remover(tx, indices), Canonical, Always, indices, units, t, k) {
      if Canonical(t) && place(t, k).Ok? && place(t, k).value == indices[k] {
        assert HasToken(tx, k);
        OneOutputUndone(t, height, hash, tx, indices, k);
      }
    }
    assert indices[..n] == indices;
    BackUndoesEach(place, Remover(tx, indices), Canonical, Always, indices, units, o, n, []);
  }

  // ----- inputs

  /** What the input loop does to the spent images, as long as it meets no throw. */
  lemma {:induction false} InputsSpend(c: Core, vin: seq<TxIn>, n: nat)
    requires n <= |vin|
    requires var r := AddInputs(c, vin, n); r.Ok? && r.value
    ensures AllSupported(vin[..n]) && Distinct(ImageList(vin[..n])) && Images(vin[..n]) !! c.spent
    ensures AddInputs(c, vin, n).state == c.(spent := c.spent + Images(vin[..n]))
  {
    if n > 0 {
      InputsSpend(c, vin, n - 1);
      assert vin[..n][..n - 1] == vin[..n - 1];
      assert vin[..n][n - 1] == vin[n - 1];
    }
  }

  lemma {:induction false} SupportedInputsContinue(c: Core, vin: seq<TxIn>, n: nat)
    requires n <= |vin| && AllSupported(vin) && AddInputs(c, vin, n).Ok?
    ensures AddInputs(c, vin, n).value
  {
    if n > 0 {
      SupportedInputsContinue(c, vin, n - 1);
      assert Supported(vin[n - 1]);
    }
  }

  lemma {:induction false} InputsKeepRest(c: Core, vin: seq<TxIn>, n: nat)
    requires n <= |vin|
    ensures var r := AddInputs(c, vin, n); r.state == c.(spent := r.state.spent)
  {
    if n > 0 { InputsKeepRest(c, vin, n - 1); }
  }

  // ----- transactions

  /** What the part after the inputs leaves in the tables. */
  lemma AddTxBodyShape(c: Core, height: nat, hash: Hash, tx: Transaction)
    requires AddTxBody(c, height, hash, tx).Ok?
    ensures var o := AddOutputs(c.outs, height, hash, tx);
            && o.Ok? && hash !in c.txIndices
            && AddTxBody(c, height, hash, tx).state == Core(
                 c.spent,
                 c.txIndices[hash := TxIndex(|c.txs|, tx.unlockTime, height)],
                 c.txs + [Row(|c.txs|, tx)],
                 c.txOutputs + [Row(|c.txs|, o.value)],
                 o.state)
  {
  }

  /** The key images come off first, so the removal of the rest sees any set of spent images. */
  lemma AddTxBodyUndone(c: Core, height: nat, hash: Hash, tx: Transaction, spent: set<KeyImage>)
    requires Canonical(c.outs) && Undoable(tx) && AddTxBody(c, height, hash, tx).Ok?
    ensures var t := AddTxBody(c, height, hash, tx).state;
            && GetTx(t, hash) == Some(tx) && Canonical(t.outs)
            && RemoveTransactionData(t.(spent := spent), hash, tx) == Ok(c.(spent := spent), ())
  {
    var o := AddOutputs(c.outs, height, hash, tx);
    AddTxBodyShape(c, height, hash, tx);
    OutputsUndone(c.outs, height, hash, tx);
    AppendDelete(c.txs, Row(|c.txs|, tx));
    AppendDelete(c.txOutputs, Row(|c.txs|, o.value));
    assert c.txIndices[hash := TxIndex(|c.txs|, tx.unlockTime, height)] - {hash} == c.txIndices;
  }

  /** An added transaction: its images are new, and its body went in. */
  lemma AddedShape(c: Core, height: nat, hash: Hash, tx: Transaction)
    requires AllSupported(tx.vin) && AddTransaction(c, height, hash, tx).Ok?
    ensures Distinct(ImageList(tx.vin)) && Images(tx.vin) !! c.spent
    ensures var d := c.(spent := c.spent + Images(tx.vin));
            && AddTxBody(d, height, hash, tx).Ok?
            && AddTransaction(c, height, hash, tx) == AddTxBody(d, height, hash, tx)
            && AddTransaction(c, height, hash, tx).value
  {
    SupportedInputsContinue(c, tx.vin, |tx.vin|);
    InputsSpend(c, tx.vin, |tx.vin|);
    assert tx.vin[..|tx.vin|] == tx.vin;
  }

  lemma TransactionUndone(c: Core, height: nat, hash: Hash, tx: Transaction)
    requires Canonical(c.outs) && Undoable(tx) && AddTransaction(c, height, hash, tx).Ok?
    ensures var t := AddTransaction(c, height, hash, tx).state;
            Canonical(t.outs) && RemoveTransaction(t, hash) == Ok(c, ()) && PopTx(t, hash) == Ok(c, tx)
  {
    AddedShape(c, height, hash, tx);
    var d := c.(spent := c.spent + Images(tx.vin));
    AddTxBodyShape(d, height, hash, tx);
    AddTxBodyUndone(d, height, hash, tx, c.spent);
    assert c.spent + Images(tx.vin) - Images(tx.vin) == c.spent;
  }

  // ----- blocks

  ghost predicate CanonicalCore(c: Core) { Canonical(c.outs) }

  predicate Always(k: nat) { true }

  lemma OneTxUndone(c: Core, height: nat, hashes: seq<Hash>, txs: seq<Transaction>, flags: seq<bool>, k: nat)
    requires k < |txs| == |hashes| == |flags| && Undoable(txs[k])
    ensures UndoneAt(Adder(height, hashes, txs), Popper(hashes), CanonicalCore, Always, flags, txs, c, k)
  {
    if CanonicalCore(c) && AddTransaction(c, height, hashes[k], txs[k]).Ok? {
      TransactionUndone(c, height, hashes[k], txs[k]);
    }
  }

  lemma {:induction false} TxsUndone(c: Core, height: nat, hashes: seq<Hash>, txs: seq<Transaction>)
    requires |txs| == |hashes| && Canonical(c.outs)
    requires forall i :: 0 <= i < |txs| ==> Undoable(txs[i])
    requires AddTxs(c, height, hashes, txs).Ok?
    ensures var t := AddTxs(c, height, hashes, txs).state;
            Canonical(t.outs) && PopTxs(t, hashes) == Ok(c, Reversed(txs, |txs|))
  {
    var n := |txs|;
    var add, pop := Adder(height, hashes, txs), Popper(hashes);
    EachPrefix(add, c, n, n);
    var flags := AddTxs(c, height, hashes, txs).value;
    forall t, k | 0 <= k < n ensures UndoneAt(add, pop, CanonicalCore, Always, flags, txs, t, k) {
      OneTxUndone(t, height, hashes, txs, flags, k);
    }
    assert flags[..n] == flags;
    BackUndoesEach(add, pop, CanonicalCore, Always, flags, txs, c, n, []);
    assert [] + Reversed(txs, n) == Reversed(txs, n);
  }

  /** The block tables are restored whatever the transactions did. */
  lemma BlockRowUndone(s: Store, blk: Block, meta: BlockMeta, numRct: nat)
    requires AddBlockRow(s, blk, meta, numRct).Ok?
    ensures var b := AddBlockRow(s, blk, meta, numRct).state;
            && b.core == s.core && b.blocks != [] && b.blocks[|b.blocks| - 1].blk == blk
            && RemoveBlock(b) == Ok(s, ())
  {
    var b := AddBlockRow(s, blk, meta, numRct).state;
    assert b.blocks[..|b.blocks| - 1] == s.blocks;
    assert b.blockHeights - {blk.id} == s.blockHeights;
  }

  /** One direction of the round trip. */
  lemma {:induction false} BlockUndone(s: Store, blk: Block, meta: BlockMeta, txs: seq<Transaction>)
    requires Canonical(s.core.outs) && UndoableBlock(blk, txs)
    requires AddBlock(s, blk, meta, txs).Ok?
    ensures var r := AddBlock(s, blk, meta, txs);
            Canonical(r.state.core.outs) && PopBlock(r.state) == Ok(s, (blk, Reversed(txs, |txs|)))
  {
    var m := AddTransaction(s.core, |s.blocks|, blk.minerTx.hash, blk.minerTx).state;
    TransactionUndone(s.core, |s.blocks|, blk.minerTx.hash, blk.minerTx);
    TxsUndone(m, |s.blocks|, blk.txHashes, txs);
    var r := AddTxs(m, |s.blocks|, blk.txHashes, txs).state;
    BlockRowUndone(s.(core := r), blk, meta, NumRctOuts(blk, txs));
  }
}
