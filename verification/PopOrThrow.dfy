/** Blocks without token ids: popping them does not go wrong, it throws. */
module PopOrThrow {
  import opened Tables
  import opened Ledger
  import opened Rounds
  import opened Store
  import opened BlockOps
  import opened Undo
  import opened OutputIndex

  predicate AgreeingBlock(blk: Block, txs: seq<Transaction>) {
    Agreeing(blk.minerTx) && forall i :: 0 <= i < |txs| ==> Agreeing(txs[i])
  }

  /** The height entry of a Zyphora output without token is looked for in the native index. */
  lemma NoTokenThrows(o: Outputs, height: nat, hash: Hash, out: TxOut, i: nat, unlock: nat,
                      commitment: Option<Key>)
    requires NoHoles(o) && IsZyphora(out) && out.amount == 0 && out.target.token == NULL_TOKEN
    requires AddOutput(o, height, hash, out, i, unlock, commitment).Ok?
    ensures var r := AddOutput(o, height, hash, out, i, unlock, commitment);
            RemoveOutput(r.state, 0, r.value) == Throw(r.state, HeightEntryMissing)
  {
    AppendDelete(Bucket(o, 0), Row(|Bucket(o, 0)|, OutKeyFor(out, NextKey(o.outputTxs), unlock, height, commitment)));
  }

  lemma OneOutputPopped(o: Outputs, height: nat, hash: Hash, tx: Transaction, indices: seq<nat>, i: nat)
    requires NoHoles(o) && Agreeing(tx) && i < |tx.vout| && i < |indices|
    requires Placer(height, hash, tx)(o, i).Ok? && Placer(height, hash, tx)(o, i).value == indices[i]
    ensures var r := Placer(height, hash, tx)(o, i);
            && NoHoles(r.state)
            && if HasToken(tx, i) then Remover(tx, indices)(r.state, i) == Ok(o, ())
               else Remover(tx, indices)(r.state, i).Throw?
  {
    AddOneFiles(o, Filed(hash, height, tx), i);
    if HasToken(tx, i) {
      OneOutputUndone(o, height, hash, tx, indices, i);
    } else {
      PlacerStores(o, height, hash, tx, i);
      NoTokenThrows(o, height, hash, FiledOut(tx, i), i, UnlockTimeOf(tx, i).value, CommitmentFor(tx, i));
    }
  }

  lemma OutputsPopped(o: Outputs, height: nat, hash: Hash, tx: Transaction)
    requires NoHoles(o) && Agreeing(tx) && AddOutputs(o, height, hash, tx).Ok?
    ensures var r := AddOutputs(o, height, hash, tx);
            NoHoles(r.state) && (!HasTokens(tx) ==> RemoveOutputs(r.state, tx, r.value).Throw?)
  {
    var n := |tx.vout|;
    var place := Placer(height, hash, tx);
    EachPrefix(place, o, n, n);
    var indices := AddOutputs(o, height, hash, tx).value;
    var units := seq(n, _ => ());
    var good := (k: nat) => k < n && HasToken(tx, k);
    forall t, k | 0 <= k < n ensures UndoneAt(place, Remover(tx, indices), NoHoles, good, indices, units, t, k) {
      if NoHoles(t) && place(t, k).Ok? && place(t, k).value == indices[k] {
        OneOutputPopped(t, height, hash, tx, indices, k);
      }
    }
    assert indices[..n] == indices;
    BackUndoesEach(place, Remover(tx, indices), NoHoles, good, indices, units, o, n, []);
    if !HasTokens(tx) {
      var k :| 0 <= k < n && !HasToken(tx, k);
      assert !good(k);
    }
  }

  lemma TransactionPopped(c: Core, height: nat, hash: Hash, tx: Transaction)
    requires NoHoles(c.outs) && Agreeing(tx) && AddTransaction(c, height, hash, tx).Ok?
    ensures var t := AddTransaction(c, height, hash, tx).state;
            && NoHoles(t.outs)
            && if HasTokens(tx) then PopTx(t, hash) == Ok(c, tx) else PopTx(t, hash).Throw?
  {
    AddedShape(c, height, hash, tx);
    var d := c.(spent := c.spent + Images(tx.vin));
    AddTxBodyShape(d, height, hash, tx);
    OutputsPopped(c.outs, height, hash, tx);
    if HasTokens(tx) {
      TransactionUndone(c, height, hash, tx);
    } else {
      BodyStays(d, height, hash, tx, AddTransaction(c, height, hash, tx).state);
    }
  }

  /** When the outputs do not come off, the transaction does not. */
  lemma BodyStays(c: Core, height: nat, hash: Hash, tx: Transaction, t: Core)
    requires AddTxBody(c, height, hash, tx).Ok? && t == AddTxBody(c, height, hash, tx).state
    requires var o := AddOutputs(c.outs, height, hash, tx); o.Ok? && RemoveOutputs(o.state, tx, o.value).Throw?
    ensures PopTx(t, hash).Throw?
  {
    AddTxBodyShape(c, height, hash, tx);
    AppendDelete(c.txs, Row(|c.txs|, tx));
    AppendDelete(c.txOutputs, Row(|c.txs|, AddOutputs(c.outs, height, hash, tx).value));
  }

  lemma {:induction false} TxsPopped(c: Core, height: nat, hashes: seq<Hash>, txs: seq<Transaction>)
    requires |txs| == |hashes| && NoHoles(c.outs)
    requires forall i :: 0 <= i < |txs| ==> Agreeing(txs[i])
    requires AddTxs(c, height, hashes, txs).Ok?
    ensures var t := AddTxs(c, height, hashes, txs).state;
            && NoHoles(t.outs)
            && if forall i :: 0 <= i < |txs| ==> HasTokens(txs[i])
               then PopTxs(t, hashes) == Ok(c, Reversed(txs, |txs|)) else PopTxs(t, hashes).Throw?
  {
    var n := |txs|;
    var add, pop := Adder(height, hashes, txs), Popper(hashes);
    var I := (d: Core) => NoHoles(d.outs);
    EachPrefix(add, c, n, n);
    var flags := AddTxs(c, height, hashes, txs).value;
    var good := (k: nat) => k < n && HasTokens(txs[k]);
    forall t, k | 0 <= k < n ensures UndoneAt(add, pop, I, good, flags, txs, t, k) {
      if I(t) && add(t, k).Ok? { TransactionPopped(t, height, hashes[k], txs[k]); }
    }
    assert flags[..n] == flags;
    BackUndoesEach(add, pop, I, good, flags, txs, c, n, []);
    assert [] + Reversed(txs, n) == Reversed(txs, n);
    assert forall k :: 0 <= k < n ==> (good(k) <==> HasTokens(txs[k]));
  }

  /** A block of supported inputs and agreeing amounts, added to tables without holes: its pop
      restores the store exactly if every token is there, and throws otherwise. */
  lemma {:induction false} PopRestoresOrThrows(s: Store, blk: Block, meta: BlockMeta, txs: seq<Transaction>)
    requires NoHoles(s.core.outs) && AgreeingBlock(blk, txs) && AddBlock(s, blk, meta, txs).Ok?
    ensures var r := AddBlock(s, blk, meta, txs);
            && NoHoles(r.state.core.outs)
            && if UndoableBlock(blk, txs) then PopBlock(r.state) == Ok(s, (blk, Reversed(txs, |txs|)))
               else PopBlock(r.state).Throw?
  {
    AddBlockParts(s, blk, meta, txs);
    var m := AddTransaction(s.core, |s.blocks|, blk.minerTx.hash, blk.minerTx).state;
    TransactionPopped(s.core, |s.blocks|, blk.minerTx.hash, blk.minerTx);
    TxsPopped(m, |s.blocks|, blk.txHashes, txs);
    if UndoableBlock(blk, txs) {
      BlockUndone(s, blk, meta, txs);
    } else {
      var r := AddTxs(m, |s.blocks|, blk.txHashes, txs).state;
      BlockRowUndone(s.(core := r), blk, meta, NumRctOuts(blk, txs));
    }
  }
}
