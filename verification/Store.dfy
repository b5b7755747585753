/** The tables of the block store and what each storage operation does to them, as functions
    on values.  An operation that throws reports the tables as it left them, so the functions
    also fix the half-done state that the enclosing write transaction has to discard. */
module Store {
  import opened Tables
  import opened Ledger
  import opened Rounds

  datatype TxIndex = TxIndex(txId: nat, unlockTime: nat, blockId: nat)

  /** A row of the per-amount output table; its key there is the index within the amount. */
  datatype OutKey = OutKey(outputId: nat, pubkey: Key, unlockTime: nat, height: nat,
                           commitment: Option<Key>, token: nat)

  datatype OutTx = OutTx(txHash: Hash, localIndex: nat)

  datatype BlockMeta = BlockMeta(weight: nat, longTermWeight: nat, difficulty: nat, coins: nat)

  datatype BlockRow = BlockRow(blk: Block, meta: BlockMeta, cumRct: nat)

  /** The output tables: rows per amount, rows by global output number, and the two height
      indexes over amount 0. */
  datatype Outputs = Outputs(
    buckets: map<Amount, Table<OutKey>>,
    outputTxs: Table<OutTx>,
    nativeHeights: set<(nat, nat)>,
    zyHeights: set<(nat, nat)>)

  /** What transactions touch, apart from the block tables. */
  datatype Core = Core(
    spent: set<KeyImage>,
    txIndices: map<Hash, TxIndex>,
    txs: Table<Transaction>,
    txOutputs: Table<seq<nat>>,
    outs: Outputs)

  datatype Store = Store(core: Core, blocks: seq<BlockRow>, blockHeights: map<Hash, nat>)

  const NO_OUTPUTS: Outputs := Outputs(map[], [], {}, {})

  const NO_TXS: Core := Core({}, map[], [], [], NO_OUTPUTS)

  const EMPTY: Store := Store(NO_TXS, [], map[])

  /** The rows filed under an amount; an amount without rows has no key in the table. */
  function BucketOf(buckets: map<Amount, Table<OutKey>>, a: Amount): Table<OutKey> {
    if a in buckets then buckets[a] else []
  }

  function PutBucket(buckets: map<Amount, Table<OutKey>>, a: Amount, t: Table<OutKey>)
    : map<Amount, Table<OutKey>>
  {
    if t == [] then buckets - {a} else buckets[a := t]
  }

  function Bucket(o: Outputs, a: Amount): Table<OutKey> { BucketOf(o.buckets, a) }

  /** A stored table never keeps a key whose last row is gone. */
  ghost predicate Canonical(o: Outputs) {
    forall a :: a in o.buckets ==> o.buckets[a] != []
  }

  // ----- key images

  function AddSpentKey(c: Core, k: KeyImage): Res<Core, ()> {
    if k in c.spent then Throw(c, KeyImageExists) else Ok(c.(spent := c.spent + {k}), ())
  }

  function RemoveSpentKey(c: Core, k: KeyImage): Core { c.(spent := c.spent - {k}) }

  // ----- transactions; `height` is the height of the block under construction

  function AddTransactionData(c: Core, height: nat, hash: Hash, tx: Transaction): Res<Core, nat> {
    var txId := |c.txs|;
    if hash in c.txIndices then Throw(c, TxExists)
    else
      var c1 := c.(txIndices := c.txIndices[hash := TxIndex(txId, tx.unlockTime, height)]);
      if !CanAppend(c.txs, txId) then Throw(c1, AppendOrder)
      else Ok(c1.(txs := c.txs + [Row(txId, tx)]), txId)
  }

  function GetTx(c: Core, hash: Hash): Option<Transaction> {
    if hash !in c.txIndices then None
    else
      var pos := Find(c.txs, c.txIndices[hash].txId);
      if pos.None? then None else Some(c.txs[pos.value].value)
  }

  // ----- outputs

  /** The row that an output is stored as. */
  function OutKeyFor(out: TxOut, outputId: nat, unlockTime: nat, height: nat, commitment: Option<Key>)
    : OutKey
    requires !out.target.ToScriptOut?
  {
    match out.target
    case Zyphora(stealth, c, token) => OutKey(outputId, stealth, unlockTime, height, Some(c), token)
    case ToKeyOut(key) =>
      OutKey(outputId, key, unlockTime, height, if out.amount == 0 then commitment else None, NULL_TOKEN)
  }

  /** A height index takes a new entry only beyond the ones it holds for that height. */
  predicate CanAppendHeight(heights: set<(nat, nat)>, height: nat, index: nat) {
    forall p <- heights :: p.0 == height ==> p.1 < index
  }

  function AddOutput(o: Outputs, height: nat, hash: Hash, out: TxOut, localIndex: nat,
                     unlockTime: nat, commitment: Option<Key>): Res<Outputs, nat>
  {
    if out.target.ToScriptOut? then Throw(o, WrongOutputType)
    else if !IsZyphora(out) && out.amount == 0 && commitment.None? then Throw(o, RctWithoutCommitment)
    else
      var outputId := NextKey(o.outputTxs);
      var o1 := o.(outputTxs := o.outputTxs + [Row(outputId, OutTx(hash, localIndex))]);
      var bucket := Bucket(o, out.amount);
      var index := |bucket|;
      if !CanAppend(bucket, index) then Throw(o1, AppendOrder)
      else
        var row := Row(index, OutKeyFor(out, outputId, unlockTime, height, commitment));
        var o2 := o1.(buckets := PutBucket(o.buckets, out.amount, bucket + [row]));
        if out.amount != 0 then Ok(o2, index)
        else if IsZyphora(out) then
          if CanAppendHeight(o.zyHeights, height, index)
          then Ok(o2.(zyHeights := o.zyHeights + {(height, index)}), index)
          else Throw(o2, AppendOrder)
        else
          if CanAppendHeight(o.nativeHeights, height, index)
          then Ok(o2.(nativeHeights := o.nativeHeights + {(height, index)}), index)
          else Throw(o2, AppendOrder)
  }

  function AddTxAmountOutputIndices(c: Core, txId: nat, indices: seq<nat>): Res<Core, ()> {
    if CanAppend(c.txOutputs, txId)
    then Ok(c.(txOutputs := c.txOutputs + [Row(txId, indices)]), ())
    else Throw(c, AppendOrder)
  }

  /** Takes the height entry of a row at amount 0 out of the index its token id points to. */
  function RemoveHeightEntry(o: Outputs, row: OutKey, index: nat): Res<Outputs, ()> {
    var entry := (row.height, index);
    if row.token != NULL_TOKEN then
      if entry in o.zyHeights then Ok(o.(zyHeights := o.zyHeights - {entry}), ())
      else Throw(o, HeightEntryMissing)
    else
      if entry in o.nativeHeights then Ok(o.(nativeHeights := o.nativeHeights - {entry}), ())
      else Throw(o, HeightEntryMissing)
  }

  function RemoveOutput(o: Outputs, amount: Amount, index: nat): Res<Outputs, ()> {
    var bucket := Bucket(o, amount);
    var pos := Find(bucket, index);
    if pos.None? then Throw(o, OutputMissing)
    else
      var row := bucket[pos.value].value;
      var r := if amount == 0 then RemoveHeightEntry(o, row, index) else Ok(o, ());
      if r.Throw? then r
      else
        var txPos := Find(o.outputTxs, row.outputId);
        if txPos.None? then Throw(r.state, OutputTxMissing)
        else
          Ok(r.state.(outputTxs := DeleteAt(o.outputTxs, txPos.value),
                      buckets := PutBucket(o.buckets, amount, DeleteAt(bucket, pos.value))), ())
  }

  /** One round of the removal loop. */
  function Remover(tx: Transaction, indices: seq<nat>): (Outputs, nat) -> Res<Outputs, ()> {
    (o: Outputs, k: nat) =>
      if k < |tx.vout| && k < |indices| then RemoveOutput(o, RemovedAmount(tx, k), indices[k])
      else Throw(o, OutputIndicesMissing)
  }

  /** Takes the outputs of a transaction off, the last one first. */
  function RemoveOutputs(o: Outputs, tx: Transaction, indices: seq<nat>): Res<Outputs, seq<()>> {
    Back(Remover(tx, indices), o, |tx.vout|, [])
  }

  function RemoveTxOutputs(c: Core, txId: nat, tx: Transaction): Res<Core, ()> {
    var pos := Find(c.txOutputs, txId);
    if pos.None? then Throw(c, OutputIndicesMissing)
    else
      var r := RemoveOutputs(c.outs, tx, c.txOutputs[pos.value].value);
      if r.Throw? then Throw(c.(outs := r.state), r.error) else Ok(c.(outs := r.state), ())
  }

  function RemoveTransactionData(c: Core, hash: Hash, tx: Transaction): Res<Core, ()> {
    if hash !in c.txIndices then Throw(c, TxMissing)
    else
      var txId := c.txIndices[hash].txId;
      var pos := Find(c.txs, txId);
      if pos.None? then Throw(c, TxMissing)
      else
        var r := RemoveTxOutputs(c.(txs := DeleteAt(c.txs, pos.value)), txId, tx);
        if r.Throw? then r
        else
          var outPos := Find(r.state.txOutputs, txId);
          var outputs := if outPos.None? then r.state.txOutputs
                         else DeleteAt(r.state.txOutputs, outPos.value);
          Ok(r.state.(txOutputs := outputs, txIndices := r.state.txIndices - {hash}), ())
  }

  // ----- blocks

  function LastCumRct(s: Store): nat {
    if s.blocks == [] then 0 else s.blocks[|s.blocks| - 1].cumRct
  }

  function AddBlockRow(s: Store, blk: Block, meta: BlockMeta, numRct: nat): Res<Store, ()> {
    var height := |s.blocks|;
    if blk.id in s.blockHeights then Throw(s, BlockExists)
    else if height > 0 && blk.prevId !in s.blockHeights then Throw(s, ParentMissing)
    else if height > 0 && s.blockHeights[blk.prevId] != height - 1 then Throw(s, ParentNotTop)
    else Ok(s.(blocks := s.blocks + [BlockRow(blk, meta, numRct + LastCumRct(s))],
               blockHeights := s.blockHeights[blk.id := height]), ())
  }

  function RemoveBlock(s: Store): Res<Store, ()> {
    if s.blocks == [] then Throw(s, BlockMissing)
    else
      var top := s.blocks[|s.blocks| - 1].blk;
      if top.id !in s.blockHeights then Throw(s, BlockMissing)
      else Ok(s.(blocks := s.blocks[..|s.blocks| - 1],
                 blockHeights := s.blockHeights - {top.id}), ())
  }
}
