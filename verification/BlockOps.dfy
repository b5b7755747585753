/** Adding and removing transactions and blocks. */
module BlockOps {
  import opened Tables
  import opened Ledger
  import opened Rounds
  import opened Store

  /** The first n inputs; the value says whether all of them were of a supported kind. */
  function AddInputs(c: Core, vin: seq<TxIn>, n: nat): Res<Core, bool>
    requires n <= |vin|
  {
    if n == 0 then Ok(c, true)
    else
      var r := AddInputs(c, vin, n - 1);
      if r.Throw? || !r.value then r
      else if HasImage(vin[n - 1]) then
        var k := AddSpentKey(r.state, vin[n - 1].image);
        if k.Throw? then Throw(k.state, k.error) else Ok(k.state, true)
      else Ok(r.state, vin[n - 1].Gen?)
  }

  lemma {:induction false} InputsStop(c: Core, vin: seq<TxIn>, i: nat, n: nat)
    requires i <= n <= |vin|
    requires var r := AddInputs(c, vin, i); r.Throw? || !r.value
    ensures AddInputs(c, vin, n) == AddInputs(c, vin, i)
  {
    if i < n { InputsStop(c, vin, i, n - 1); }
  }

  function RemoveImages(c: Core, vin: seq<TxIn>): Core {
    c.(spent := c.spent - Images(vin))
  }

  function UnlockTimeOf(tx: Transaction, i: nat): Option<nat> {
    if tx.version >= V3_PER_OUTPUT_UNLOCK_TIMES then
      if i < |tx.outputUnlockTimes| then Some(tx.outputUnlockTimes[i]) else None
    else Some(tx.unlockTime)
  }

  /** One round of the output loop, with the running count of native outputs. */
  function AddOneOutput(o: Outputs, height: nat, hash: Hash, tx: Transaction, miner: bool,
                        i: nat, native: nat): Res<Outputs, nat>
    requires i < |tx.vout|
  {
    var unlock := UnlockTimeOf(tx, i);
    var coinbase := miner && tx.version >= V2_RINGCT;
    var masked := !coinbase && tx.version >= V2_RINGCT && !IsZyphora(tx.vout[i]);
    if unlock.None? then Throw(o, UnlockTimesRange)
    else if masked && native >= |tx.outPk| then Throw(o, OutPkRange)
    else
      var out := if coinbase then tx.vout[i].(amount := 0) else tx.vout[i];
      var commitment := if coinbase then Some(ZeroCommit(tx.vout[i].amount))
                        else if masked then Some(tx.outPk[native]) else None;
      AddOutput(o, height, hash, out, i, unlock.value, commitment)
  }

  function Placer(height: nat, hash: Hash, tx: Transaction): (Outputs, nat) -> Res<Outputs, nat> {
    (o: Outputs, k: nat) =>
      if k < |tx.vout| then AddOneOutput(o, height, hash, tx, HasGen(tx.vin), k, NativeRank(tx.vout, k))
      else Throw(o, OutputMissing)
  }

  /** Files the outputs in order; the value lists the index each got within its amount. */
  function AddOutputs(o: Outputs, height: nat, hash: Hash, tx: Transaction): Res<Outputs, seq<nat>> {
    Each(Placer(height, hash, tx), o, |tx.vout|)
  }

  /** The part of the addition that follows the inputs. */
  function AddTxBody(c: Core, height: nat, hash: Hash, tx: Transaction): Res<Core, bool> {
    var d := AddTransactionData(c, height, hash, tx);
    if d.Throw? then Throw(d.state, d.error)
    else
      var o := AddOutputs(c.outs, height, hash, tx);
      if o.Throw? then Throw(d.state.(outs := o.state), o.error)
      else
        var x := AddTxAmountOutputIndices(d.state.(outs := o.state), d.value, o.value);
        if x.Throw? then Throw(x.state, x.error) else Ok(x.state, true)
  }

  /** Value true: the transaction was added; false: an unsupported input aborted it. */
  function AddTransaction(c: Core, height: nat, hash: Hash, tx: Transaction): Res<Core, bool> {
    var r := AddInputs(c, tx.vin, |tx.vin|);
    if r.Throw? then r
    else if !r.value then Ok(RemoveImages(r.state, tx.vin), false)
    else AddTxBody(r.state, height, hash, tx)
  }

  function RemoveTransaction(c: Core, hash: Hash): Res<Core, ()> {
    var tx := GetTx(c, hash);
    if tx.None? then Throw(c, TxMissing)
    else RemoveTransactionData(RemoveImages(c, tx.value.vin), hash, tx.value)
  }

  // ----- the transactions of a block

  function Adder(height: nat, hashes: seq<Hash>, txs: seq<Transaction>): (Core, nat) -> Res<Core, bool> {
    (c: Core, k: nat) =>
      if k < |hashes| && k < |txs| then AddTransaction(c, height, hashes[k], txs[k])
      else Throw(c, InconsistentSizes)
  }

  function AddTxs(c: Core, height: nat, hashes: seq<Hash>, txs: seq<Transaction>): Res<Core, seq<bool>> {
    Each(Adder(height, hashes, txs), c, |txs|)
  }

  /** Reads a transaction and removes it. */
  function PopTx(c: Core, hash: Hash): Res<Core, Transaction> {
    var tx := GetTx(c, hash);
    if tx.None? then Throw(c, TxMissing)
    else
      var r := RemoveTransaction(c, hash);
      if r.Throw? then Throw(r.state, r.error) else Ok(r.state, tx.value)
  }

  function Popper(hashes: seq<Hash>): (Core, nat) -> Res<Core, Transaction> {
    (c: Core, k: nat) => if k < |hashes| then PopTx(c, hashes[k]) else Throw(c, TxMissing)
  }

  /** Removes the transactions, the last one first, listing them as they come. */
  function PopTxs(c: Core, hashes: seq<Hash>): Res<Core, seq<Transaction>> {
    Back(Popper(hashes), c, |hashes|, [])
  }

  // ----- blocks

  function ZeroAmounts(vout: seq<TxOut>, n: nat): nat
    requires n <= |vout|
  {
    if n == 0 then 0 else ZeroAmounts(vout, n - 1) + if vout[n - 1].amount == 0 then 1 else 0
  }

  /** The zero-amount outputs of the first n transactions. */
  function BlockZeroAmounts(txs: seq<Transaction>, n: nat): nat
    requires n <= |txs|
  {
    if n == 0 then 0
    else BlockZeroAmounts(txs, n - 1) + ZeroAmounts(txs[n - 1].vout, |txs[n - 1].vout|)
  }

  /** The RingCT outputs that a block is recorded to have. */
  function NumRctOuts(blk: Block, txs: seq<Transaction>): nat {
    (if blk.minerTx.version >= V2_RINGCT then |blk.minerTx.vout| else 0) + BlockZeroAmounts(txs, |txs|)
  }

  /** Returns the height the store had before. */
  function AddBlock(s: Store, blk: Block, meta: BlockMeta, txs: seq<Transaction>): Res<Store, nat> {
    if |blk.txHashes| != |txs| then Throw(s, InconsistentSizes)
    else
      var m := AddTransaction(s.core, |s.blocks|, blk.minerTx.hash, blk.minerTx);
      if m.Throw? then Throw(s.(core := m.state), m.error)
      else
        var r := AddTxs(m.state, |s.blocks|, blk.txHashes, txs);
        if r.Throw? then Throw(s.(core := r.state), r.error)
        else
          var b := AddBlockRow(s.(core := r.state), blk, meta, NumRctOuts(blk, txs));
          if b.Throw? then Throw(b.state, b.error) else Ok(b.state, |s.blocks|)
  }

  function PopBlock(s: Store): Res<Store, (Block, seq<Transaction>)> {
    var b := RemoveBlock(s);
    if b.Throw? then Throw(b.state, b.error)
    else
      var blk := s.blocks[|s.blocks| - 1].blk;
      var r := PopTxs(s.core, blk.txHashes);
      if r.Throw? then Throw(b.state.(core := r.state), r.error)
      else
        var m := RemoveTransaction(r.state, blk.minerTx.hash);
        if m.Throw? then Throw(b.state.(core := m.state), m.error)
        else Ok(b.state.(core := m.state), (blk, r.value))
  }

  /** What a block that was added did, part by part. */
  lemma AddBlockParts(s: Store, blk: Block, meta: BlockMeta, txs: seq<Transaction>)
    requires AddBlock(s, blk, meta, txs).Ok?
    ensures |blk.txHashes| == |txs|
    ensures var m := AddTransaction(s.core, |s.blocks|, blk.minerTx.hash, blk.minerTx);
            && m.Ok? && AddTxs(m.state, |s.blocks|, blk.txHashes, txs).Ok?
            && AddBlock(s, blk, meta, txs).state.core == AddTxs(m.state, |s.blocks|, blk.txHashes, txs).state
    ensures |AddBlock(s, blk, meta, txs).state.blocks| == |s.blocks| + 1
  {
  }
}
