/** The round trip holds for exactly the undoable blocks.  The converse is a counting argument:
    when every removal goes through, the number of transactions or a weight on the output
    tables ends up wrong. */
module UndoExact {
  import opened Tables
  import opened Ledger
  import opened Rounds
  import opened Store
  import opened BlockOps
  import opened Undo

  // ----- a weight that every removal lowers by what it should

  function PlainRows(t: Table<OutKey>): nat {
    if t == [] then 0
    else PlainRows(t[..|t| - 1]) + if t[|t| - 1].value.token == NULL_TOKEN then 1 else 0
  }

  function Weight(o: Outputs): nat { |o.zyHeights| + PlainRows(Bucket(o, 0)) }

  lemma {:induction false} PlainRowsDelete(t: Table<OutKey>, pos: nat)
    requires pos < |t|
    ensures PlainRows(t) == PlainRows(DeleteAt(t, pos)) + if t[pos].value.token == NULL_TOKEN then 1 else 0
  {
    var d := DeleteAt(t, pos);
    if pos == |t| - 1 {
      assert d == t[..|t| - 1];
    } else {
      PlainRowsDelete(t[..|t| - 1], pos);
      assert d[..|d| - 1] == DeleteAt(t[..|t| - 1], pos);
      assert d[|d| - 1] == t[|t| - 1];
    }
  }

  lemma {:induction false} PlainRowsAppend(t: Table<OutKey>, row: Row<OutKey>)
    ensures PlainRows(t + [row]) == PlainRows(t) + if row.value.token == NULL_TOKEN then 1 else 0
  {
    assert (t + [row])[..|t|] == t;
  }

  lemma NewHeightEntry(heights: set<(nat, nat)>, height: nat, index: nat)
    requires CanAppendHeight(heights, height, index)
    ensures |heights + {(height, index)}| == |heights| + 1
  {
    assert (height, index) !in heights;
  }

  lemma AddOutputWeight(o: Outputs, height: nat, hash: Hash, out: TxOut, i: nat, unlock: nat,
                        commitment: Option<Key>)
    requires AddOutput(o, height, hash, out, i, unlock, commitment).Ok?
    ensures Weight(AddOutput(o, height, hash, out, i, unlock, commitment).state) == Weight(o) +
              if out.amount != 0 then 0
              else if IsZyphora(out) && out.target.token == NULL_TOKEN then 2 else 1
  {
    var p := AddOutput(o, height, hash, out, i, unlock, commitment).state;
    var b := Bucket(o, 0);
    if out.amount == 0 {
      var row := Row(|b|, OutKeyFor(out, NextKey(o.outputTxs), unlock, height, commitment));
      assert Bucket(p, 0) == b + [row];
      PlainRowsAppend(b, row);
      if IsZyphora(out) {
        assert p.zyHeights == o.zyHeights + {(height, |b|)};
        NewHeightEntry(o.zyHeights, height, |b|);
      } else {
        assert p.zyHeights == o.zyHeights;
      }
    } else {
      assert Bucket(p, 0) == b && p.zyHeights == o.zyHeights;
    }
  }

  lemma RemoveOutputWeight(o: Outputs, amount: Amount, index: nat)
    requires RemoveOutput(o, amount, index).Ok?
    ensures Weight(o) == Weight(RemoveOutput(o, amount, index).state) + if amount == 0 then 1 else 0
  {
    var bucket := Bucket(o, amount);
    var pos := Find(bucket, index).value;
    if amount == 0 {
      PlainRowsDelete(bucket, pos);
      var entry := (bucket[pos].value.height, index);
      assert entry in o.zyHeights ==> |o.zyHeights - {entry}| == |o.zyHeights| - 1;
    }
  }

  function FiledWeight(tx: Transaction, n: nat): nat
    requires n <= |tx.vout|
  {
    if n == 0 then 0
    else FiledWeight(tx, n - 1) +
         if FiledAmount(tx, n - 1) != 0 then 0 else if HasToken(tx, n - 1) then 1 else 2
  }

  function RemovedWeight(tx: Transaction, n: nat): nat
    requires n <= |tx.vout|
  {
    if n == 0 then 0
    else RemovedWeight(tx, n - 1) + if RemovedAmount(tx, n - 1) == 0 then 1 else 0
  }

  /** The two weights of a transaction agree exactly when its outputs come off as they went on. */
  lemma {:induction false} WeightsAgree(tx: Transaction, n: nat)
    requires n <= |tx.vout|
    ensures RemovedWeight(tx, n) <= FiledWeight(tx, n)
    ensures RemovedWeight(tx, n) == FiledWeight(tx, n) <==>
            forall i :: 0 <= i < n ==> FiledAmount(tx, i) == RemovedAmount(tx, i) && HasToken(tx, i)
  {
    if n > 0 { WeightsAgree(tx, n - 1); }
  }

  lemma {:induction false} AddOutputsWeight(o: Outputs, height: nat, hash: Hash, tx: Transaction)
    requires AddOutputs(o, height, hash, tx).Ok?
    ensures Weight(AddOutputs(o, height, hash, tx).state) == Weight(o) + FiledWeight(tx, |tx.vout|)
  {
    var place := Placer(height, hash, tx);
    var P := (p: Outputs, vs: seq<nat>, k: nat) => k <= |tx.vout| && Weight(p) == Weight(o) + FiledWeight(tx, k);
    forall p, vs, k | 0 <= k < |tx.vout| ensures KeptAt(place, P, p, vs, k) {
      if P(p, vs, k) && place(p, k).Ok? {
        PlacerStores(p, height, hash, tx, k);
        AddOutputWeight(p, height, hash, FiledOut(tx, k), k, UnlockTimeOf(tx, k).value, CommitmentFor(tx, k));
      }
    }
    EachKeeps(place, P, o, |tx.vout|);
  }

  lemma {:induction false} RemoveOutputsWeight(o: Outputs, tx: Transaction, indices: seq<nat>)
    requires RemoveOutputs(o, tx, indices).Ok?
    ensures Weight(o) == Weight(RemoveOutputs(o, tx, indices).state) + RemovedWeight(tx, |tx.vout|)
  {
    var n := |tx.vout|;
    var P := (p: Outputs, k: nat) => k <= n && Weight(o) + RemovedWeight(tx, k) == Weight(p) + RemovedWeight(tx, n);
    forall p, k | 0 <= k < n ensures KeptBackAt(Remover(tx, indices), P, p, k) {
      if P(p, k + 1) && Remover(tx, indices)(p, k).Ok? {
        RemoveOutputWeight(p, RemovedAmount(tx, k), indices[k]);
      }
    }
    BackKeeps(Remover(tx, indices), P, o, n, []);
  }

  // ----- what one addition and one removal do, whatever the transaction

  lemma AddedIffSupported(c: Core, height: nat, hash: Hash, tx: Transaction)
    requires AddTransaction(c, height, hash, tx).Ok?
    ensures AddTransaction(c, height, hash, tx).value <==> AllSupported(tx.vin)
  {
    var r := AddInputs(c, tx.vin, |tx.vin|);
    assert tx.vin[..|tx.vin|] == tx.vin;
    if r.value { InputsSpend(c, tx.vin, |tx.vin|); }
    if AllSupported(tx.vin) { SupportedInputsContinue(c, tx.vin, |tx.vin|); }
  }

  /** Addition files one row when the inputs are supported and none otherwise. */
  lemma {:induction false} AddTransactionTables(c: Core, height: nat, hash: Hash, tx: Transaction)
    requires AddTransaction(c, height, hash, tx).Ok?
    ensures var t := AddTransaction(c, height, hash, tx).state;
            if AllSupported(tx.vin) then
              && hash !in c.txIndices && t.txs == c.txs + [Row(|c.txs|, tx)]
              && t.txIndices == c.txIndices[hash := TxIndex(|c.txs|, tx.unlockTime, height)]
              && Weight(t.outs) == Weight(c.outs) + FiledWeight(tx, |tx.vout|)
            else t == c.(spent := t.spent)
  {
    AddedIffSupported(c, height, hash, tx);
    InputsKeepRest(c, tx.vin, |tx.vin|);
    if AllSupported(tx.vin) {
      AddedShape(c, height, hash, tx);
      AddTxBodyShape(c.(spent := c.spent + Images(tx.vin)), height, hash, tx);
      AddOutputsWeight(c.outs, height, hash, tx);
    }
  }

  lemma PopTxTables(c: Core, hash: Hash)
    requires PopTx(c, hash).Ok?
    ensures var t := PopTx(c, hash).state;
            var tx := PopTx(c, hash).value;
            && GetTx(c, hash) == Some(tx) && |t.txs| == |c.txs| - 1
            && t.txs == DeleteAt(c.txs, Find(c.txs, c.txIndices[hash].txId).value)
            && t.txIndices == c.txIndices - {hash} && t.spent == c.spent - Images(tx.vin)
            && Weight(c.outs) == Weight(t.outs) + RemovedWeight(tx, |tx.vout|)
  {
    var tx := GetTx(c, hash).value;
    var txId := c.txIndices[hash].txId;
    RemoveOutputsWeight(c.outs, tx, c.txOutputs[Find(c.txOutputs, txId).value].value);
  }

  // ----- unsupported inputs: a transaction row is missing

  function SupportedCount(txs: seq<Transaction>, n: nat): nat
    requires n <= |txs|
  {
    if n == 0 then 0 else SupportedCount(txs, n - 1) + if AllSupported(txs[n - 1].vin) then 1 else 0
  }

  lemma {:induction false} SupportedCountFull(txs: seq<Transaction>, n: nat)
    requires n <= |txs|
    ensures SupportedCount(txs, n) <= n
    ensures SupportedCount(txs, n) == n ==> forall i :: 0 <= i < n ==> AllSupported(txs[i].vin)
  {
    if n > 0 { SupportedCountFull(txs, n - 1); }
  }

  lemma {:induction false} AddTxsRows(c: Core, height: nat, hashes: seq<Hash>, txs: seq<Transaction>)
    requires |txs| == |hashes| && AddTxs(c, height, hashes, txs).Ok?
    ensures |AddTxs(c, height, hashes, txs).state.txs| == |c.txs| + SupportedCount(txs, |txs|)
  {
    var add := Adder(height, hashes, txs);
    var P := (d: Core, vs: seq<bool>, k: nat) => k <= |txs| && |d.txs| == |c.txs| + SupportedCount(txs, k);
    forall d, vs, k | 0 <= k < |txs| ensures KeptAt(add, P, d, vs, k) {
      if P(d, vs, k) && add(d, k).Ok? { AddTransactionTables(d, height, hashes[k], txs[k]); }
    }
    EachKeeps(add, P, c, |txs|);
  }

  lemma PopTxsRows(c: Core, hashes: seq<Hash>)
    requires PopTxs(c, hashes).Ok?
    ensures |c.txs| == |PopTxs(c, hashes).state.txs| + |hashes|
  {
    var P := (d: Core, k: nat) => k <= |hashes| && |d.txs| + |hashes| == |c.txs| + k;
    forall d, k | 0 <= k < |hashes| ensures KeptBackAt(Popper(hashes), P, d, k) {
      if P(d, k + 1) && Popper(hashes)(d, k).Ok? { PopTxTables(d, hashes[k]); }
    }
    BackKeeps(Popper(hashes), P, c, |hashes|, []);
  }

  /** What a successful removal of a block consists of. */
  lemma PopBlockParts(s: Store, blk: Block, meta: BlockMeta, txs: seq<Transaction>)
    requires AddBlock(s, blk, meta, txs).Ok? && PopBlock(AddBlock(s, blk, meta, txs).state).Ok?
    ensures |txs| == |blk.txHashes|
    ensures var m := AddTransaction(s.core, |s.blocks|, blk.minerTx.hash, blk.minerTx);
            && m.Ok? && AddTxs(m.state, |s.blocks|, blk.txHashes, txs).Ok?
            && var p := PopTxs(AddTxs(m.state, |s.blocks|, blk.txHashes, txs).state, blk.txHashes);
               && p.Ok? && PopTx(p.state, blk.minerTx.hash).Ok?
               && PopBlock(AddBlock(s, blk, meta, txs).state).state.core == PopTx(p.state, blk.minerTx.hash).state
  {
  }

  lemma PopNeedsSupported(s: Store, blk: Block, meta: BlockMeta, txs: seq<Transaction>)
    requires AddBlock(s, blk, meta, txs).Ok?
    requires var p := PopBlock(AddBlock(s, blk, meta, txs).state);
             p.Ok? && |p.state.core.txs| == |s.core.txs|
    ensures AllSupported(blk.minerTx.vin) && forall i :: 0 <= i < |txs| ==> AllSupported(txs[i].vin)
  {
    PopBlockParts(s, blk, meta, txs);
    var m := AddTransaction(s.core, |s.blocks|, blk.minerTx.hash, blk.minerTx).state;
    AddTransactionTables(s.core, |s.blocks|, blk.minerTx.hash, blk.minerTx);
    AddTxsRows(m, |s.blocks|, blk.txHashes, txs);
    SupportedCountFull(txs, |txs|);
    var r := AddTxs(m, |s.blocks|, blk.txHashes, txs).state;
    PopTxsRows(r, blk.txHashes);
    PopTxTables(PopTxs(r, blk.txHashes).state, blk.minerTx.hash);
  }

  // ----- outputs that come off wrongly: the weight is off

  function BlockFiled(txs: seq<Transaction>, n: nat): nat
    requires n <= |txs|
  {
    if n == 0 then 0 else BlockFiled(txs, n - 1) + FiledWeight(txs[n - 1], |txs[n - 1].vout|)
  }

  function BlockRemoved(txs: seq<Transaction>, n: nat): nat
    requires n <= |txs|
  {
    if n == 0 then 0 else BlockRemoved(txs, n - 1) + RemovedWeight(txs[n - 1], |txs[n - 1].vout|)
  }

  lemma {:induction false} BlockWeightsAgree(txs: seq<Transaction>, n: nat)
    requires n <= |txs| && forall i :: 0 <= i < n ==> AllSupported(txs[i].vin)
    ensures BlockRemoved(txs, n) <= BlockFiled(txs, n)
    ensures BlockRemoved(txs, n) == BlockFiled(txs, n) ==> forall i :: 0 <= i < n ==> Undoable(txs[i])
  {
    if n > 0 {
      BlockWeightsAgree(txs, n - 1);
      WeightsAgree(txs[n - 1], |txs[n - 1].vout|);
    }
  }

  lemma {:induction false} AddTxsWeight(c: Core, height: nat, hashes: seq<Hash>, txs: seq<Transaction>)
    requires |txs| == |hashes| && AddTxs(c, height, hashes, txs).Ok?
    requires forall i :: 0 <= i < |txs| ==> AllSupported(txs[i].vin)
    ensures Weight(AddTxs(c, height, hashes, txs).state.outs) == Weight(c.outs) + BlockFiled(txs, |txs|)
  {
    var add := Adder(height, hashes, txs);
    var P := (d: Core, vs: seq<bool>, k: nat) => k <= |txs| && Weight(d.outs) == Weight(c.outs) + BlockFiled(txs, k);
    forall d, vs, k | 0 <= k < |txs| ensures KeptAt(add, P, d, vs, k) {
      if P(d, vs, k) && add(d, k).Ok? { AddTransactionTables(d, height, hashes[k], txs[k]); }
    }
    EachKeeps(add, P, c, |txs|);
  }

  /** A removal finds the transaction that was filed last, and leaves the tables before it,
      whatever happened to the output tables in between. */
  lemma {:induction false} PopFindsLast(c: Core, height: nat, hash: Hash, tx: Transaction, t: Core)
    requires AddTransaction(c, height, hash, tx).Ok? && AllSupported(tx.vin)
    requires var a := AddTransaction(c, height, hash, tx).state; t.txs == a.txs && t.txIndices == a.txIndices
    requires PopTx(t, hash).Ok?
    ensures var u := PopTx(t, hash).state;
            && u.txs == c.txs && u.txIndices == c.txIndices
            && Weight(t.outs) == Weight(u.outs) + RemovedWeight(tx, |tx.vout|)
  {
    AddTransactionTables(c, height, hash, tx);
    PopTxTables(t, hash);
    AppendDelete(c.txs, Row(|c.txs|, tx));
    assert t.txIndices - {hash} == c.txIndices;
  }

  /** With k transactions left to pop, d has the transaction tables of the first k, and the weight
      that the removals so far leave of t's. */
  ghost predicate PoppedTo(c: Core, height: nat, hashes: seq<Hash>, txs: seq<Transaction>, t: Core, d: Core, k: nat) {
    var a := Each(Adder(height, hashes, txs), c, k).state;
    && k <= |txs| && d.txs == a.txs && d.txIndices == a.txIndices
    && Weight(t.outs) + BlockRemoved(txs, k) == Weight(d.outs) + BlockRemoved(txs, |txs|)
  }

  lemma {:induction false} PopOneFurther(
    c: Core, height: nat, hashes: seq<Hash>, txs: seq<Transaction>, t: Core, d: Core, k: nat)
    requires k < |txs| == |hashes| && AllSupported(txs[k].vin)
    requires Each(Adder(height, hashes, txs), c, k + 1).Ok?
    requires PoppedTo(c, height, hashes, txs, t, d, k + 1) && PopTx(d, hashes[k]).Ok?
    ensures PoppedTo(c, height, hashes, txs, t, PopTx(d, hashes[k]).state, k)
  {
    PopFindsLast(Each(Adder(height, hashes, txs), c, k).state, height, hashes[k], txs[k], d);
  }

  lemma PopTxsWeight(c: Core, height: nat, hashes: seq<Hash>, txs: seq<Transaction>)
    requires |txs| == |hashes| && AddTxs(c, height, hashes, txs).Ok?
    requires forall i :: 0 <= i < |txs| ==> AllSupported(txs[i].vin)
    requires PopTxs(AddTxs(c, height, hashes, txs).state, hashes).Ok?
    ensures var t := AddTxs(c, height, hashes, txs).state;
            PoppedTo(c, height, hashes, txs, t, PopTxs(t, hashes).state, 0)
  {
    var t := AddTxs(c, height, hashes, txs).state;
    var P := (d: Core, k: nat) => PoppedTo(c, height, hashes, txs, t, d, k);
    forall d, k | 0 <= k < |txs| ensures KeptBackAt(Popper(hashes), P, d, k) {
      if P(d, k + 1) && Popper(hashes)(d, k).Ok? {
        EachPrefix(Adder(height, hashes, txs), c, k + 1, |txs|);
        PopOneFurther(c, height, hashes, txs, t, d, k);
      }
    }
    BackKeeps(Popper(hashes), P, t, |txs|, []);
  }

  lemma PopNeedsUndoable(s: Store, blk: Block, meta: BlockMeta, txs: seq<Transaction>)
    requires AddBlock(s, blk, meta, txs).Ok?
    requires AllSupported(blk.minerTx.vin) && forall i :: 0 <= i < |txs| ==> AllSupported(txs[i].vin)
    requires var p := PopBlock(AddBlock(s, blk, meta, txs).state);
             p.Ok? && Weight(p.state.core.outs) == Weight(s.core.outs)
    ensures UndoableBlock(blk, txs)
  {
    PopBlockParts(s, blk, meta, txs);
    var m := AddTransaction(s.core, |s.blocks|, blk.minerTx.hash, blk.minerTx).state;
    AddTransactionTables(s.core, |s.blocks|, blk.minerTx.hash, blk.minerTx);
    AddTxsWeight(m, |s.blocks|, blk.txHashes, txs);
    PopTxsWeight(m, |s.blocks|, blk.txHashes, txs);
    var p := PopTxs(AddTxs(m, |s.blocks|, blk.txHashes, txs).state, blk.txHashes).state;
    PopFindsLast(s.core, |s.blocks|, blk.minerTx.hash, blk.minerTx, p);
    BlockWeightsAgree(txs, |txs|);
    WeightsAgree(blk.minerTx, |blk.minerTx.vout|);
  }

  /** The main result: for every store and every block the store accepts, popping gives back the
      store, the block and its transactions newest first if and only if the block is undoable. */
  lemma {:induction false} PopUndoesAddExactly(s: Store, blk: Block, meta: BlockMeta, txs: seq<Transaction>)
    requires Canonical(s.core.outs) && AddBlock(s, blk, meta, txs).Ok?
    ensures PopBlock(AddBlock(s, blk, meta, txs).state) == Ok(s, (blk, Reversed(txs, |txs|)))
            <==> UndoableBlock(blk, txs)
  {
    if UndoableBlock(blk, txs) {
      BlockUndone(s, blk, meta, txs);
    }
    if PopBlock(AddBlock(s, blk, meta, txs).state) == Ok(s, (blk, Reversed(txs, |txs|))) {
      PopNeedsSupported(s, blk, meta, txs);
      PopNeedsUndoable(s, blk, meta, txs);
    }
  }
}
