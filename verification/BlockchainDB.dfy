/** The store as the program keeps it: tables updated in place.  Every method is proved against
    the function of the same name, on success and on every throw. */
module BlockchainDB {
  import opened Tables
  import opened Ledger
  import opened Rounds
  import S = Store
  import B = BlockOps

  /** The outcome and the tables are those the function describes. */
  ghost predicate Agrees<St, T>(r: Res<St, T>, view: St, err: Option<Error>) {
    view == r.state && err == (if r.Throw? then Some(r.error) else None)
  }

  class BlockchainDB {
    var spent: set<KeyImage>
    var txIndices: map<Hash, S.TxIndex>
    var txs: Table<Transaction>
    var txOutputs: Table<seq<nat>>
    var buckets: map<Amount, Table<S.OutKey>>
    var outputTxs: Table<S.OutTx>
    var nativeHeights: set<(nat, nat)>
    var zyHeights: set<(nat, nat)>
    var blocks: seq<S.BlockRow>
    var blockHeights: map<Hash, nat>

    ghost function Outs(): S.Outputs
      reads this
    {
      S.Outputs(buckets, outputTxs, nativeHeights, zyHeights)
    }

    ghost function Core(): S.Core
      reads this
    {
      S.Core(spent, txIndices, txs, txOutputs, Outs())
    }

    ghost function View(): S.Store
      reads this
    {
      S.Store(Core(), blocks, blockHeights)
    }

    constructor ()
      ensures View() == S.EMPTY
    {
      spent, txIndices, txs, txOutputs := {}, map[], [], [];
      buckets, outputTxs, nativeHeights, zyHeights := map[], [], {}, {};
      blocks, blockHeights := [], map[];
    }

    // ----- storage operations

    method AddSpentKey(k: KeyImage) returns (err: Option<Error>)
      modifies `spent
      ensures Agrees(S.AddSpentKey(old(Core()), k), Core(), err)
    {
      if k in spent { return Some(KeyImageExists); }
      spent := spent + {k};
      err := None;
    }

    method RemoveSpentKey(k: KeyImage)
      modifies `spent
      ensures Core() == S.RemoveSpentKey(old(Core()), k)
    {
      if k in spent { spent := spent - {k}; }
    }

    method AddTransactionData(hash: Hash, tx: Transaction) returns (err: Option<Error>, txId: nat)
      modifies `txIndices, `txs
      ensures var r := S.AddTransactionData(old(Core()), |old(blocks)|, hash, tx);
              Agrees(r, Core(), err) && (err.None? ==> txId == r.value)
    {
      txId := |txs|;
      if hash in txIndices { return Some(TxExists), txId; }
      txIndices := txIndices[hash := S.TxIndex(txId, tx.unlockTime, |blocks|)];
      if !CanAppend(txs, txId) { return Some(AppendOrder), txId; }
      txs := txs + [Row(txId, tx)];
      err := None;
    }

    method AddOutput(hash: Hash, out: TxOut, localIndex: nat, unlockTime: nat, commitment: Option<Key>)
      returns (err: Option<Error>, index: nat)
      modifies `buckets, `outputTxs, `nativeHeights, `zyHeights
      ensures var r := S.AddOutput(old(Outs()), |old(blocks)|, hash, out, localIndex, unlockTime, commitment);
              Agrees(r, Outs(), err) && (err.None? ==> index == r.value)
    {
      index := 0;
      if out.target.ToScriptOut? { return Some(WrongOutputType), 0; }
      if !IsZyphora(out) && out.amount == 0 && commitment.None? { return Some(RctWithoutCommitment), 0; }
      var outputId := NextKey(outputTxs);
      outputTxs := outputTxs + [Row(outputId, S.OutTx(hash, localIndex))];
      var bucket := S.BucketOf(buckets, out.amount);
      index := |bucket|;
      if !CanAppend(bucket, index) { return Some(AppendOrder), index; }
      var row := Row(index, S.OutKeyFor(out, outputId, unlockTime, |blocks|, commitment));
      buckets := S.PutBucket(buckets, out.amount, bucket + [row]);
      if out.amount == 0 {
        if IsZyphora(out) {
          if !S.CanAppendHeight(zyHeights, |blocks|, index) { return Some(AppendOrder), index; }
          zyHeights := zyHeights + {(|blocks|, index)};
        } else {
          if !S.CanAppendHeight(nativeHeights, |blocks|, index) { return Some(AppendOrder), index; }
          nativeHeights := nativeHeights + {(|blocks|, index)};
        }
      }
      err := None;
    }

    method AddTxAmountOutputIndices(txId: nat, indices: seq<nat>) returns (err: Option<Error>)
      modifies `txOutputs
      ensures Agrees(S.AddTxAmountOutputIndices(old(Core()), txId, indices), Core(), err)
    {
      if !CanAppend(txOutputs, txId) { return Some(AppendOrder); }
      txOutputs := txOutputs + [Row(txId, indices)];
      err := None;
    }

    method RemoveOutput(amount: Amount, index: nat) returns (err: Option<Error>)
      modifies `buckets, `outputTxs, `nativeHeights, `zyHeights
      ensures Agrees(S.RemoveOutput(old(Outs()), amount, index), Outs(), err)
    {
      var bucket := S.BucketOf(buckets, amount);
      var pos := Find(bucket, index);
      if pos.None? { return Some(OutputMissing); }
      var row := bucket[pos.value].value;
      if amount == 0 {
        var entry := (row.height, index);
        if row.token != NULL_TOKEN {
          if entry !in zyHeights { return Some(HeightEntryMissing); }
          zyHeights := zyHeights - {entry};
        } else {
          if entry !in nativeHeights { return Some(HeightEntryMissing); }
          nativeHeights := nativeHeights - {entry};
        }
      }
      var txPos := Find(outputTxs, row.outputId);
      if txPos.None? { return Some(OutputTxMissing); }
      outputTxs := DeleteAt(outputTxs, txPos.value);
      buckets := S.PutBucket(buckets, amount, DeleteAt(bucket, pos.value));
      err := None;
    }

    /** The removal loop, from the last output down. */
    method RemoveOutputs(tx: Transaction, indices: seq<nat>) returns (err: Option<Error>)
      modifies `buckets, `outputTxs, `nativeHeights, `zyHeights
      ensures Agrees(S.RemoveOutputs(old(Outs()), tx, indices), Outs(), err)
    {
      var pseudoRct := RemovedAsCoinbase(tx);
      ghost var step, done := S.Remover(tx, indices), [];
      var i := |tx.vout|;
      while i > 0
        invariant 0 <= i <= |tx.vout|
        invariant Back(step, old(Outs()), |tx.vout|, []) == Back(step, Outs(), i, done)
      {
        if i > |indices| { return Some(OutputIndicesMissing); }
        i := i - 1;
        err := RemoveOutput(if pseudoRct then 0 else tx.vout[i].amount, indices[i]);
        if err.Some? { return; }
        done := done + [()];
      }
      err := None;
    }

    method RemoveTxOutputs(txId: nat, tx: Transaction) returns (err: Option<Error>)
      modifies `buckets, `outputTxs, `nativeHeights, `zyHeights
      ensures Agrees(S.RemoveTxOutputs(old(Core()), txId, tx), Core(), err)
    {
      var pos := Find(txOutputs, txId);
      if pos.None? { return Some(OutputIndicesMissing); }
      err := RemoveOutputs(tx, txOutputs[pos.value].value);
    }

    method RemoveTransactionData(hash: Hash, tx: Transaction) returns (err: Option<Error>)
      modifies `txIndices, `txs, `txOutputs, `buckets, `outputTxs, `nativeHeights, `zyHeights
      ensures Agrees(S.RemoveTransactionData(old(Core()), hash, tx), Core(), err)
    {
      if hash !in txIndices { return Some(TxMissing); }
      var txId := txIndices[hash].txId;
      var pos := Find(txs, txId);
      if pos.None? { return Some(TxMissing); }
      txs := DeleteAt(txs, pos.value);
      err := RemoveTxOutputs(txId, tx);
      if err.Some? { return; }
      var outPos := Find(txOutputs, txId);
      if outPos.Some? { txOutputs := DeleteAt(txOutputs, outPos.value); }
      txIndices := txIndices - {hash};
    }

    method GetTx(hash: Hash) returns (tx: Option<Transaction>)
      ensures tx == S.GetTx(Core(), hash)
    {
      if hash !in txIndices { return None; }
      var pos := Find(txs, txIndices[hash].txId);
      if pos.None? { return None; }
      tx := Some(txs[pos.value].value);
    }

    method AddBlockRow(blk: Block, meta: S.BlockMeta, numRct: nat) returns (err: Option<Error>)
      modifies `blocks, `blockHeights
      ensures Agrees(S.AddBlockRow(old(View()), blk, meta, numRct), View(), err)
    {
      var height := |blocks|;
      if blk.id in blockHeights { return Some(BlockExists); }
      if height > 0 {
        if blk.prevId !in blockHeights { return Some(ParentMissing); }
        if blockHeights[blk.prevId] != height - 1 { return Some(ParentNotTop); }
      }
      var cumRct := numRct;
      if height > 0 { cumRct := cumRct + blocks[height - 1].cumRct; }
      blocks := blocks + [S.BlockRow(blk, meta, cumRct)];
      blockHeights := blockHeights[blk.id := height];
      err := None;
    }

    method RemoveBlock() returns (err: Option<Error>)
      modifies `blocks, `blockHeights
      ensures Agrees(S.RemoveBlock(old(View())), View(), err)
    {
      if |blocks| == 0 { return Some(BlockMissing); }
      var top := blocks[|blocks| - 1].blk;
      if top.id !in blockHeights { return Some(BlockMissing); }
      blockHeights := blockHeights - {top.id};
      blocks := blocks[..|blocks| - 1];
      err := None;
    }

    // ----- transactions

    /** The loop that takes the images of all inputs out of the spent set. */
    method RemoveImages(vin: seq<TxIn>)
      modifies `spent
      ensures Core() == B.RemoveImages(old(Core()), vin)
    {
      for i := 0 to |vin|
        invariant Core() == B.RemoveImages(old(Core()), vin[..i])
      {
        ImageListStep(vin, i);
        if HasImage(vin[i]) { RemoveSpentKey(vin[i].image); }
      }
      assert vin[..|vin|] == vin;
    }

    /** The input loop; `miner` reports a generation input, `added` that all were supported. */
    method AddInputs(vin: seq<TxIn>) returns (err: Option<Error>, supported: bool, miner: bool)
      modifies `spent
      ensures var r := B.AddInputs(old(Core()), vin, |vin|);
              Agrees(r, Core(), err) && (err.None? ==> supported == r.value)
      ensures err.None? && supported ==> miner == HasGen(vin)
    {
      miner := false;
      for i := 0 to |vin|
        invariant B.AddInputs(old(Core()), vin, i) == Ok(Core(), true)
        invariant miner == exists j :: 0 <= j < i && vin[j].Gen?
      {
        if HasImage(vin[i]) {
          err := AddSpentKey(vin[i].image);
          if err.Some? {
            B.InputsStop(old(Core()), vin, i + 1, |vin|);
            return err, false, miner;
          }
        } else if vin[i].Gen? {
          miner := true;
        } else {
          B.InputsStop(old(Core()), vin, i + 1, |vin|);
          return None, false, miner;
        }
      }
      return None, true, miner;
    }

    /** The output loop, counting native outputs as it goes. */
    method AddOutputs(hash: Hash, tx: Transaction, miner: bool) returns (err: Option<Error>, indices: seq<nat>)
      requires miner == HasGen(tx.vin)
      modifies `buckets, `outputTxs, `nativeHeights, `zyHeights
      ensures var r := B.AddOutputs(old(Outs()), |old(blocks)|, hash, tx);
              Agrees(r, Outs(), err) && (err.None? ==> indices == r.value)
    {
      indices := [];
      var native := 0;
      ghost var step := B.Placer(|blocks|, hash, tx);
      for i := 0 to |tx.vout|
        invariant Each(step, old(Outs()), i) == Ok(Outs(), indices)
        invariant native == NativeRank(tx.vout, i)
      {
        EachNext(step, old(Outs()), i, |tx.vout|);
        var index := 0;
        err, index := AddOneOutput(hash, tx, miner, i, native);
        if err.Some? { return; }
        indices := indices + [index];
        if !IsZyphora(tx.vout[i]) { native := native + 1; }
      }
      err := None;
    }

    method AddOneOutput(hash: Hash, tx: Transaction, miner: bool, i: nat, native: nat)
      returns (err: Option<Error>, index: nat)
      requires i < |tx.vout| && miner == HasGen(tx.vin) && native == NativeRank(tx.vout, i)
      modifies `buckets, `outputTxs, `nativeHeights, `zyHeights
      ensures var r := B.Placer(|old(blocks)|, hash, tx)(old(Outs()), i);
              Agrees(r, Outs(), err) && (err.None? ==> index == r.value)
    {
      var unlockTime := tx.unlockTime;
      if tx.version >= V3_PER_OUTPUT_UNLOCK_TIMES {
        if i >= |tx.outputUnlockTimes| { return Some(UnlockTimesRange), 0; }
        unlockTime := tx.outputUnlockTimes[i];
      }
      if miner && tx.version >= V2_RINGCT {
        var vout := tx.vout[i].(amount := 0);
        err, index := AddOutput(hash, vout, i, unlockTime, Some(ZeroCommit(tx.vout[i].amount)));
      } else {
        var commitment := None;
        if tx.version >= V2_RINGCT && !IsZyphora(tx.vout[i]) {
          if native >= |tx.outPk| { return Some(OutPkRange), 0; }
          commitment := Some(tx.outPk[native]);
        }
        err, index := AddOutput(hash, tx.vout[i], i, unlockTime, commitment);
      }
    }

    method AddTransaction(hash: Hash, tx: Transaction) returns (err: Option<Error>, added: bool)
      modifies `spent, `txIndices, `txs, `txOutputs, `buckets, `outputTxs, `nativeHeights, `zyHeights
      ensures var r := B.AddTransaction(old(Core()), |old(blocks)|, hash, tx);
              Agrees(r, Core(), err) && (err.None? ==> added == r.value)
    {
      var supported, miner;
      err, supported, miner := AddInputs(tx.vin);
      if err.Some? { return err, false; }
      if !supported {
        RemoveImages(tx.vin);
        return None, false;
      }
      var txId;
      err, txId := AddTransactionData(hash, tx);
      if err.Some? { return err, false; }
      var indices;
      err, indices := AddOutputs(hash, tx, miner);
      if err.Some? { return err, false; }
      err := AddTxAmountOutputIndices(txId, indices);
      added := err.None?;
    }

    method RemoveTransaction(hash: Hash) returns (err: Option<Error>)
      modifies `spent, `txIndices, `txs, `txOutputs, `buckets, `outputTxs, `nativeHeights, `zyHeights
      ensures Agrees(B.RemoveTransaction(old(Core()), hash), Core(), err)
    {
      var tx := GetTx(hash);
      if tx.None? { return Some(TxMissing); }
      RemoveImages(tx.value.vin);
      err := RemoveTransactionData(hash, tx.value);
    }

    // ----- blocks

    method CountZeroAmounts(vout: seq<TxOut>) returns (c: nat)
      ensures c == B.ZeroAmounts(vout, |vout|)
    {
      c := 0;
      for i := 0 to |vout|
        invariant c == B.ZeroAmounts(vout, i)
      {
        if vout[i].amount == 0 { c := c + 1; }
      }
    }

    method AddTxs(hashes: seq<Hash>, txns: seq<Transaction>) returns (err: Option<Error>, zeros: nat)
      requires |hashes| == |txns|
      modifies `spent, `txIndices, `txs, `txOutputs, `buckets, `outputTxs, `nativeHeights, `zyHeights
      ensures Agrees(B.AddTxs(old(Core()), |old(blocks)|, hashes, txns), Core(), err)
      ensures err.None? ==> zeros == B.BlockZeroAmounts(txns, |txns|)
    {
      zeros := 0;
      ghost var step, flags := B.Adder(|blocks|, hashes, txns), [];
      for i := 0 to |txns|
        invariant Each(step, old(Core()), i) == Ok(Core(), flags)
        invariant zeros == B.BlockZeroAmounts(txns, i)
      {
        EachNext(step, old(Core()), i, |txns|);
        var added;
        err, added := AddTransaction(hashes[i], txns[i]);
        if err.Some? { return; }
        flags := flags + [added];
        var c := CountZeroAmounts(txns[i].vout);
        zeros := zeros + c;
      }
      err := None;
    }

    method AddBlock(blk: Block, meta: S.BlockMeta, txns: seq<Transaction>)
      returns (err: Option<Error>, prevHeight: nat)
      modifies this
      ensures var r := B.AddBlock(old(View()), blk, meta, txns);
              Agrees(r, View(), err) && (err.None? ==> prevHeight == r.value)
    {
      prevHeight := |blocks|;
      if |blk.txHashes| != |txns| { return Some(InconsistentSizes), prevHeight; }
      var numRct, added := 0, false;
      err, added := AddTransaction(blk.minerTx.hash, blk.minerTx);
      if err.Some? { return; }
      if blk.minerTx.version >= V2_RINGCT { numRct := |blk.minerTx.vout|; }
      var zeros;
      err, zeros := AddTxs(blk.txHashes, txns);
      if err.Some? { return; }
      err := AddBlockRow(blk, meta, numRct + zeros);
    }

    method PopTx(hash: Hash) returns (err: Option<Error>, tx: Option<Transaction>)
      modifies `spent, `txIndices, `txs, `txOutputs, `buckets, `outputTxs, `nativeHeights, `zyHeights
      ensures Agrees(B.PopTx(old(Core()), hash), Core(), err)
      ensures err.None? ==> tx == Some(B.PopTx(old(Core()), hash).value)
    {
      tx := GetTx(hash);
      if tx.None? { return Some(TxMissing), None; }
      err := RemoveTransaction(hash);
    }

    /** One round of the loop below: what is left to do is the same as before it. */
    method PopRound(ghost all: Res<S.Core, seq<Transaction>>, hashes: seq<Hash>, n: nat, popped: seq<Transaction>)
      returns (err: Option<Error>, more: seq<Transaction>)
      requires n < |hashes| && all == Back(B.Popper(hashes), Core(), n + 1, popped)
      modifies `spent, `txIndices, `txs, `txOutputs, `buckets, `outputTxs, `nativeHeights, `zyHeights
      ensures err.Some? ==> all == Throw(Core(), err.value)
      ensures err.None? ==> all == Back(B.Popper(hashes), Core(), n, more)
    {
      BackNext(B.Popper(hashes), Core(), n + 1, popped);
      more := popped;
      var tx;
      err, tx := PopTx(hashes[n]);
      if err.None? { more := popped + [tx.value]; }
    }

    /** The loop of the removal over the transactions of the block, the last one first. */
    method PopTxs(hashes: seq<Hash>) returns (err: Option<Error>, popped: seq<Transaction>)
      modifies `spent, `txIndices, `txs, `txOutputs, `buckets, `outputTxs, `nativeHeights, `zyHeights
      ensures Agrees(B.PopTxs(old(Core()), hashes), Core(), err)
      ensures err.None? ==> popped == B.PopTxs(old(Core()), hashes).value
    {
      popped := [];
      ghost var all := B.PopTxs(Core(), hashes);
      var n := |hashes|;
      while n > 0
        invariant 0 <= n <= |hashes| && all == Back(B.Popper(hashes), Core(), n, popped)
      {
        n := n - 1;
        err, popped := PopRound(all, hashes, n, popped);
        if err.Some? { return; }
      }
      err := None;
    }

    /** On an empty store the top block is a default one; the removal then throws. */
    method PopBlock() returns (err: Option<Error>, blk: Option<Block>, popped: seq<Transaction>)
      modifies this
      ensures Agrees(B.PopBlock(old(View())), View(), err)
      ensures err.None? ==> blk.Some? && B.PopBlock(old(View())).value == (blk.value, popped)
    {
      blk, popped := if |blocks| == 0 then None else Some(blocks[|blocks| - 1].blk), [];
      err := RemoveBlock();
      if err.Some? { return; }
      err, popped := PopTxs(blk.value.txHashes);
      if err.Some? { return; }
      err := RemoveTransaction(blk.value.minerTx.hash);
    }
  }
}
