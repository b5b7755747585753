/** The running count of RingCT outputs kept with each block, against the amount-0 bucket. */
module RctCount {
  import opened Tables
  import opened Ledger
  import opened Rounds
  import opened Store
  import opened BlockOps
  import opened Undo
  import opened UndoExact
  import opened Runs
  import opened Filing
  import opened Resolution

  /** How many of the first n outputs are filed under amount 0. */
  function FiledZero(tx: Transaction, n: nat): nat
    requires n <= |tx.vout|
  {
    if n == 0 then 0 else FiledZero(tx, n - 1) + if FiledAmount(tx, n - 1) == 0 then 1 else 0
  }

  lemma OneOutputZeroRow(o: Outputs, height: nat, hash: Hash, out: TxOut, i: nat, unlock: nat,
                         commitment: Option<Key>)
    requires AddOutput(o, height, hash, out, i, unlock, commitment).Ok?
    ensures |Bucket(AddOutput(o, height, hash, out, i, unlock, commitment).state, 0)| ==
            |Bucket(o, 0)| + if out.amount == 0 then 1 else 0
  {
  }

  lemma {:induction false} BucketZeroGrows(o: Outputs, height: nat, hash: Hash, tx: Transaction)
    requires AddOutputs(o, height, hash, tx).Ok?
    ensures |Bucket(AddOutputs(o, height, hash, tx).state, 0)| == |Bucket(o, 0)| + FiledZero(tx, |tx.vout|)
  {
    var place := Placer(height, hash, tx);
    var P := (p: Outputs, vs: seq<nat>, k: nat) => k <= |tx.vout| && |Bucket(p, 0)| == |Bucket(o, 0)| + FiledZero(tx, k);
    forall p, vs, k | 0 <= k < |tx.vout| ensures KeptAt(place, P, p, vs, k) {
      if P(p, vs, k) && place(p, k).Ok? {
        PlacerStores(p, height, hash, tx, k);
        OneOutputZeroRow(p, height, hash, FiledOut(tx, k), k, UnlockTimeOf(tx, k).value, CommitmentFor(tx, k));
      }
    }
    EachKeeps(place, P, o, |tx.vout|);
  }

  /** The rows a transaction adds under amount 0: none when an unsupported input aborts it. */
  function TxFiledZero(tx: Transaction): nat {
    if AllSupported(tx.vin) then FiledZero(tx, |tx.vout|) else 0
  }

  lemma TxZeroRows(c: Core, height: nat, hash: Hash, tx: Transaction)
    requires AddTransaction(c, height, hash, tx).Ok?
    ensures |Bucket(AddTransaction(c, height, hash, tx).state.outs, 0)| == |Bucket(c.outs, 0)| + TxFiledZero(tx)
  {
    AddTransactionTables(c, height, hash, tx);
    if AllSupported(tx.vin) {
      AddedShape(c, height, hash, tx);
      AddTxBodyShape(c.(spent := c.spent + Images(tx.vin)), height, hash, tx);
      BucketZeroGrows(c.outs, height, hash, tx);
    }
  }

  /** The rows that the first n transactions of a block file under amount 0. */
  function BlockFiledZero(txs: seq<Transaction>, n: nat): nat
    requires n <= |txs|
  {
    if n == 0 then 0 else BlockFiledZero(txs, n - 1) + TxFiledZero(txs[n - 1])
  }

  lemma {:induction false} TxsZeroRows(c: Core, height: nat, hashes: seq<Hash>, txs: seq<Transaction>)
    requires |txs| == |hashes| && AddTxs(c, height, hashes, txs).Ok?
    ensures |Bucket(AddTxs(c, height, hashes, txs).state.outs, 0)| ==
            |Bucket(c.outs, 0)| + BlockFiledZero(txs, |txs|)
  {
    var add := Adder(height, hashes, txs);
    var P := (d: Core, vs: seq<bool>, k: nat) =>
      k <= |txs| && |Bucket(d.outs, 0)| == |Bucket(c.outs, 0)| + BlockFiledZero(txs, k);
    forall d, vs, k | 0 <= k < |txs| ensures KeptAt(add, P, d, vs, k) {
      if P(d, vs, k) && add(d, k).Ok? { TxZeroRows(d, height, hashes[k], txs[k]); }
    }
    EachKeeps(add, P, c, |txs|);
  }

  /** What a block is recorded to have beyond the rows it files under amount 0. */
  function Excess(e: Entry): int {
    NumRctOuts(e.blk, e.txs) - TxFiledZero(e.blk.minerTx) - BlockFiledZero(e.txs, |e.txs|)
  }

  function ChainExcess(chain: seq<Entry>): int {
    if chain == [] then 0 else ChainExcess(chain[..|chain| - 1]) + Excess(chain[|chain| - 1])
  }

  /** Any block, added to any store. */
  lemma BlockZeroRows(s: Store, e: Entry)
    requires AddBlock(s, e.blk, e.meta, e.txs).Ok?
    ensures var t := AddBlock(s, e.blk, e.meta, e.txs).state;
            && t.blocks == s.blocks + [BlockRow(e.blk, e.meta, LastCumRct(t))]
            && LastCumRct(t) - LastCumRct(s) == |Bucket(t.core.outs, 0)| - |Bucket(s.core.outs, 0)| + Excess(e)
  {
    var m := AddTransaction(s.core, |s.blocks|, e.blk.minerTx.hash, e.blk.minerTx).state;
    TxZeroRows(s.core, |s.blocks|, e.blk.minerTx.hash, e.blk.minerTx);
    TxsZeroRows(m, |s.blocks|, e.blk.txHashes, e.txs);
  }

  /** For every accepted chain of any blocks the running count is the size of the amount-0 bucket
      plus the excess of the chain. */
  lemma {:induction false} CountIsBucket(chain: seq<Entry>)
    requires Accepted(chain)
    ensures LastCumRct(Replay(chain)) == |Bucket(Replay(chain).core.outs, 0)| + ChainExcess(chain)
  {
    if chain != [] {
      CountIsBucket(chain[..|chain| - 1]);
      BlockZeroRows(Replay(chain[..|chain| - 1]), chain[|chain| - 1]);
    }
  }

  /** Over every run of any blocks in which no pop goes wrong: the count is right exactly when the
      surviving blocks have no excess. */
  lemma {:induction false} RunCountsExcess(steps: seq<Step>)
    requires Never(WrongPop, steps)
    ensures var s := Run(steps).now;
            LastCumRct(s.store) == |Bucket(s.store.core.outs, 0)| + ChainExcess(s.chain)
  {
    RunBuiltExactly(steps);
    CountIsBucket(Run(steps).now.chain);
  }

  // ----- no excess on the blocks that consensus lets through

  /** Only the miner transaction has a generation input, and before RingCT its outputs are not
      zero. */
  predicate Regular(e: Entry) {
    && (if e.blk.minerTx.version >= V2_RINGCT then HasGen(e.blk.minerTx.vin)
        else forall i :: 0 <= i < |e.blk.minerTx.vout| ==> e.blk.minerTx.vout[i].amount != 0)
    && forall i :: 0 <= i < |e.txs| ==> !HasGen(e.txs[i].vin)
  }

  lemma {:induction false} FiledZeroCases(tx: Transaction, n: nat)
    requires n <= |tx.vout|
    ensures FiledAsCoinbase(tx) ==> FiledZero(tx, n) == n
    ensures !FiledAsCoinbase(tx) ==> FiledZero(tx, n) == ZeroAmounts(tx.vout, n)
    ensures !FiledAsCoinbase(tx) && (forall i :: 0 <= i < n ==> tx.vout[i].amount != 0) ==> FiledZero(tx, n) == 0
  {
    if n > 0 { FiledZeroCases(tx, n - 1); }
  }

  lemma {:induction false} RegularTxs(txs: seq<Transaction>, n: nat)
    requires n <= |txs| && forall i :: 0 <= i < |txs| ==> AllSupported(txs[i].vin) && !HasGen(txs[i].vin)
    ensures BlockFiledZero(txs, n) == BlockZeroAmounts(txs, n)
  {
    if n > 0 {
      RegularTxs(txs, n - 1);
      FiledZeroCases(txs[n - 1], |txs[n - 1].vout|);
    }
  }

  lemma RegularExact(e: Entry)
    requires SupportedEntry(e) && Regular(e)
    ensures Excess(e) == 0
  {
    RegularTxs(e.txs, |e.txs|);
    FiledZeroCases(e.blk.minerTx, |e.blk.minerTx.vout|);
  }

  ghost predicate RegularState(s: State) {
    forall i :: 0 <= i < |s.chain| ==> Regular(s.chain[i]) && SupportedEntry(s.chain[i])
  }

  lemma {:induction false} RegularHasNoExcess(chain: seq<Entry>)
    requires forall i :: 0 <= i < |chain| ==> Regular(chain[i]) && SupportedEntry(chain[i])
    ensures ChainExcess(chain) == 0
  {
    if chain != [] {
      RegularHasNoExcess(chain[..|chain| - 1]);
      RegularExact(chain[|chain| - 1]);
    }
  }

  /** Over every such run whose surviving blocks are regular and of supported inputs the count at the
      top is the bucket's size. */
  lemma {:induction false} RunCountsRct(steps: seq<Step>)
    requires Never(WrongPop, steps) && RegularState(Run(steps).now)
    ensures LastCumRct(Run(steps).now.store) == |Bucket(Run(steps).now.store.core.outs, 0)|
  {
    RunCountsExcess(steps);
    RegularHasNoExcess(Run(steps).now.chain);
  }

  /** What can be told before the run. */
  lemma {:induction false} AgreeingCountsRct(steps: seq<Step>)
    requires AgreeingSteps(steps)
    requires forall i :: 0 <= i < |steps| && steps[i].Add? ==> Regular(steps[i].entry)
    ensures LastCumRct(Run(steps).now.store) == |Bucket(Run(steps).now.store.core.outs, 0)|
  {
    AgreeingPopsWell(steps);
    AgreeingIsSupported(steps);
    forall i, s | 0 <= i < |steps| ensures KeptBy(RegularState, steps[i], s) {
    }
    RunKeeps(RegularState, steps);
    RunCountsRct(steps);
  }
}
