/** Runs from the empty store that come to the steps which the run theorems rule out: an unsupported
    input makes an image spent twice, or a pop take off another block's transaction; disagreeing
    amounts make a pop take off another block's row. */
module RunsFail {
  import opened Tables
  import opened Ledger
  import opened Rounds
  import opened Store
  import opened BlockOps
  import opened Undo
  import opened OutputIndex
  import opened Acceptance
  import opened Runs
  import opened Filing
  import opened Resolution
  import opened RctCount
  import opened RoundTripFails

  // ----- one image, spent twice

  function Bare(hash: Hash, vin: seq<TxIn>): Transaction { Transaction(hash, 2, 0, [], vin, [], []) }

  const SPEND: seq<TxIn> := [ToKey(0, [], 7)]

  const UNSPEND: seq<TxIn> := [ToScript, ToKey(0, [], 7)]

  /** A block with a coinbase that pays nobody and one more transaction. */
  function OneTx(id: Hash, prev: Hash, coin: Hash, tx: Transaction): Entry {
    Entry(Block(id, prev, Bare(coin, [Gen(0)]), [tx.hash]), META, [tx])
  }

  ghost predicate Fit(c: Core) { Dense(c.txs) && Dense(c.txOutputs) && |c.txs| == |c.txOutputs| }

  lemma {:induction false} BareAdded(c: Core, height: nat, hash: Hash, vin: seq<TxIn>)
    requires Fit(c) && hash !in c.txIndices && AllSupported(vin)
    requires Distinct(ImageList(vin)) && Images(vin) !! c.spent
    ensures AddTransaction(c, height, hash, Bare(hash, vin)) == Ok(Core(
              c.spent + Images(vin), c.txIndices[hash := TxIndex(|c.txs|, 0, height)],
              c.txs + [Row(|c.txs|, Bare(hash, vin))], c.txOutputs + [Row(|c.txs|, [])], c.outs), true)
  {
    assert vin[..|vin|] == vin;
    InputsAccepted(c, vin, |vin|);
    InputsSpend(c, vin, |vin|);
    assert AddOutputs(c.outs, height, hash, Bare(hash, vin)) == Ok(c.outs, []);
  }

  lemma SevenSpent()
    ensures ImageList(SPEND) == [7] && Images(SPEND) == {7} && ImageList([Gen(0)]) == []
    ensures ImageList(UNSPEND) == [7] && Images(UNSPEND) == {7} && Images([Gen(0)]) == {}
  {
    assert SPEND[..0] == [] && UNSPEND[..1] == [ToScript] && [ToScript][..0] == [] && [Gen(0)][..0] == [];
    assert ImageList([ToScript]) == [];
  }

  lemma UnspendAborts(c: Core, height: nat, hash: Hash)
    ensures AddTransaction(c, height, hash, Bare(hash, UNSPEND)) == Ok(c.(spent := c.spent - {7}), false)
  {
    SevenSpent();
    assert AddInputs(c, UNSPEND, 0) == Ok(c, true);
    assert AddInputs(c, UNSPEND, 1) == Ok(c, false);
    InputsStop(c, UNSPEND, 1, 2);
  }

  /** A block whose two transactions and whose row go in. */
  lemma OneTxAdded(s: Store, id: Hash, prev: Hash, coin: Hash, tx: Transaction, m: Core, t: Core, added: bool)
    requires AddTransaction(s.core, |s.blocks|, coin, Bare(coin, [Gen(0)])) == Ok(m, true)
    requires AddTransaction(m, |s.blocks|, tx.hash, tx) == Ok(t, added)
    requires id !in s.blockHeights
    requires s.blocks != [] ==> prev in s.blockHeights && s.blockHeights[prev] == |s.blocks| - 1
    ensures var e := OneTx(id, prev, coin, tx);
            var r := AddBlock(s, e.blk, e.meta, e.txs);
            r.Ok? && r.state.core == t && |r.state.blocks| == |s.blocks| + 1
            && r.state.blockHeights == s.blockHeights[id := |s.blocks|]
  {
    var add := Adder(|s.blocks|, [tx.hash], [tx]);
    assert Each(add, m, 0) == Ok(m, []);
    EachNext(add, m, 0, 1);
  }

  /** What the blocks below need of a store, and what they leave. */
  ghost predicate Ready(s: Store, n: nat) {
    && Fit(s.core) && |s.blocks| == n
    && (forall h :: h in s.core.txIndices ==> h < 10 * n + 10)
    && (forall h :: h in s.blockHeights ==> h < n && s.blockHeights[h] == h)
    && (n > 0 ==> n - 1 in s.blockHeights)
  }

  function SpendBlock(n: nat): Entry { OneTx(n, if n == 0 then 0 else n - 1, 10 * n + 10, Bare(10 * n + 11, SPEND)) }

  function UnspendBlock(n: nat): Entry { OneTx(n, if n == 0 then 0 else n - 1, 10 * n + 10, Bare(10 * n + 11, UNSPEND)) }

  /** The coinbase of block n goes in and leaves the images alone. */
  lemma CoinAdded(s: Store, n: nat)
    requires Ready(s, n)
    ensures var r := AddTransaction(s.core, n, 10 * n + 10, Bare(10 * n + 10, [Gen(0)]));
            && r.Ok? && r.value && Fit(r.state) && r.state.spent == s.core.spent
            && r.state.txs == s.core.txs + [Row(|s.core.txs|, Bare(10 * n + 10, [Gen(0)]))]
            && (forall h :: h in r.state.txIndices ==> h < 10 * n + 11)
  {
    SevenSpent();
    BareAdded(s.core, n, 10 * n + 10, [Gen(0)]);
  }

  lemma SpendAdded(c: Core, n: nat)
    requires Fit(c) && 7 !in c.spent && forall h :: h in c.txIndices ==> h < 10 * n + 11
    ensures var r := AddTransaction(c, n, 10 * n + 11, Bare(10 * n + 11, SPEND));
            && r.Ok? && r.value && Fit(r.state) && r.state.spent == c.spent + {7}
            && r.state.txs == c.txs + [Row(|c.txs|, Bare(10 * n + 11, SPEND))]
            && (forall h :: h in r.state.txIndices ==> h < 10 * n + 12)
  {
    SevenSpent();
    BareAdded(c, n, 10 * n + 11, SPEND);
  }

  lemma ReadyNext(s: Store, t: Store, n: nat)
    requires Ready(s, n) && Fit(t.core) && |t.blocks| == n + 1 && t.blockHeights == s.blockHeights[n := n]
    requires forall h :: h in t.core.txIndices ==> h < 10 * n + 12
    ensures Ready(t, n + 1)
  {
  }

  /** Both transactions of a spending block, one after the other. */
  lemma SpendPairAdded(s: Store, n: nat) returns (m: Core, t: Core)
    requires Ready(s, n) && 7 !in s.core.spent
    ensures AddTransaction(s.core, n, 10 * n + 10, Bare(10 * n + 10, [Gen(0)])) == Ok(m, true)
    ensures AddTransaction(m, n, 10 * n + 11, Bare(10 * n + 11, SPEND)) == Ok(t, true)
    ensures Fit(t) && t.spent == s.core.spent + {7} && forall h :: h in t.txIndices ==> h < 10 * n + 12
    ensures t.txs == s.core.txs + [Row(|s.core.txs|, Bare(10 * n + 10, [Gen(0)]))] +
                     [Row(|s.core.txs| + 1, Bare(10 * n + 11, SPEND))]
  {
    CoinAdded(s, n);
    m := AddTransaction(s.core, n, 10 * n + 10, Bare(10 * n + 10, [Gen(0)])).state;
    SpendAdded(m, n);
    t := AddTransaction(m, n, 10 * n + 11, Bare(10 * n + 11, SPEND)).state;
  }

  lemma SpendBlockAdded(s: Store, n: nat)
    requires Ready(s, n) && 7 !in s.core.spent
    ensures var e := SpendBlock(n);
            var r := AddBlock(s, e.blk, e.meta, e.txs);
            && r.Ok? && Ready(r.state, n + 1) && r.state.core.spent == s.core.spent + {7}
            && r.state.core.txs == s.core.txs +
                 [Row(|s.core.txs|, e.blk.minerTx)] + [Row(|s.core.txs| + 1, e.txs[0])]
  {
    var e := SpendBlock(n);
    var m, t := SpendPairAdded(s, n);
    OneTxAdded(s, n, e.blk.prevId, 10 * n + 10, e.txs[0], m, t, true);
    ReadyNext(s, AddBlock(s, e.blk, e.meta, e.txs).state, n);
  }

  lemma UnspendBlockAdded(s: Store, n: nat)
    requires Ready(s, n)
    ensures var e := UnspendBlock(n);
            var r := AddBlock(s, e.blk, e.meta, e.txs);
            && r.Ok? && Ready(r.state, n + 1) && r.state.core.spent == s.core.spent - {7}
            && r.state.core.txs == s.core.txs + [Row(|s.core.txs|, e.blk.minerTx)]
  {
    var e := UnspendBlock(n);
    CoinAdded(s, n);
    var m := AddTransaction(s.core, n, 10 * n + 10, e.blk.minerTx).state;
    UnspendAborts(m, n, 10 * n + 11);
    OneTxAdded(s, n, e.blk.prevId, 10 * n + 10, e.txs[0], m, m.(spent := m.spent - {7}), false);
    ReadyNext(s, AddBlock(s, e.blk, e.meta, e.txs).state, n);
  }

  lemma {:induction false} RunAdds(steps: seq<Step>, e: Entry)
    requires AddBlock(Run(steps).now.store, e.blk, e.meta, e.txs).Ok?
    ensures Run(steps + [Add(e)]).now ==
            State(AddBlock(Run(steps).now.store, e.blk, e.meta, e.txs).state, Run(steps).now.chain + [e])
  {
    assert (steps + [Add(e)])[..|steps|] == steps;
  }

  /** A block spends image 7, the next holds a transaction whose unsupported input makes the store
      forget it, the third spends 7 again: both transactions are in the table. */
  lemma ImageSpentTwice()
    ensures var s := Run([] + [Add(SpendBlock(0))] + [Add(UnspendBlock(1))] + [Add(SpendBlock(2))]).now;
            && s.chain == [] + [SpendBlock(0)] + [UnspendBlock(1)] + [SpendBlock(2)] && |s.store.core.txs| == 5
            && s.store.core.txs[1].value.vin == SPEND && s.store.core.txs[4].value.vin == SPEND
  {
    var steps: seq<Step> := [];
    SpendBlockAdded(Run(steps).now.store, 0);
    RunAdds(steps, SpendBlock(0));
    SpentOnceMore(steps + [Add(SpendBlock(0))]);
  }

  lemma {:induction false} SpentOnceMore(steps: seq<Step>)
    requires var s := Run(steps).now.store; Ready(s, 1) && |s.core.txs| == 2 && s.core.txs[1].value.vin == SPEND
    ensures var s := Run(steps + [Add(UnspendBlock(1))] + [Add(SpendBlock(2))]).now;
            && s.chain == Run(steps).now.chain + [UnspendBlock(1)] + [SpendBlock(2)] && |s.store.core.txs| == 5
            && s.store.core.txs[1].value.vin == SPEND && s.store.core.txs[4].value.vin == SPEND
  {
    UnspendBlockAdded(Run(steps).now.store, 1);
    RunAdds(steps, UnspendBlock(1));
    var more := steps + [Add(UnspendBlock(1))];
    SpendBlockAdded(Run(more).now.store, 2);
    RunAdds(more, SpendBlock(2));
  }

  // ----- another block's row, popped

  /** Before RingCT: filed, and looked for, under amount 5. */
  const OLD_MINER: Transaction := Transaction(1, 1, 0, [], [Gen(0)], [TxOut(5, ToKeyOut(Point(1)))], [])

  const FIRST: Entry := Entry(Block(1, 0, OLD_MINER, []), META, [])

  const SECOND: Entry := Entry(Block(2, 1, TWO_GENS, []), META, [])

  lemma RowRemovable(c: Core, fs: seq<Filed>, a: Amount, k: nat)
    requires OutputsHold(c, fs) && a != 0 && k < |Bucket(c.outs, a)|
    ensures var r := RemoveOutput(c.outs, a, k); r.Ok? && |Bucket(r.state, a)| == |Bucket(c.outs, a)| - 1
  {
    assert Dense(Bucket(c.outs, a)) && RowOwned(c, fs, a, k);
    DenseFind(Bucket(c.outs, a), k);
    DenseFind(c.outs.outputTxs, Bucket(c.outs, a)[k].value.outputId);
  }

  /** A single output whose index happens to be in use under the amount it is looked for. */
  lemma PopGoesThrough(c: Core, fs: seq<Filed>, f: Filed)
    requires TablesHold(c, fs + [f]) && OutputsHold(c, fs + [f]) && |f.tx.vout| == 1
    requires RemovedAmount(f.tx, 0) != 0
    requires |c.txOutputs[|fs|].value| == 1
    requires c.txOutputs[|fs|].value[0] < |Bucket(c.outs, RemovedAmount(f.tx, 0))|
    ensures var r := PopTx(c, f.hash);
            var a := RemovedAmount(f.tx, 0);
            r.Ok? && |Bucket(r.state.outs, a)| == |Bucket(c.outs, a)| - 1
  {
    LastFound(c, fs, f);
    assert ListHolds(c, |fs|, (fs + [f])[|fs|]);
    assert Dense(c.txOutputs) by {
      forall t | 0 <= t < |c.txOutputs| ensures c.txOutputs[t].key == t { assert ListHolds(c, t, (fs + [f])[t]); }
    }
    DenseFind(c.txOutputs, |fs|);
    var indices := c.txOutputs[|fs|].value;
    RowRemovable(c, fs + [f], RemovedAmount(f.tx, 0), indices[0]);
    BackNext(Remover(f.tx, indices), c.outs, 1, []);
    var o := RemoveOutput(c.outs, RemovedAmount(f.tx, 0), indices[0]).state;
    assert RemoveOutputs(c.outs, f.tx, indices) == Ok(o, [] + [()]);
  }

  lemma LoneAdded(s: Store, e: Entry)
    requires e.txs == [] && e.blk.txHashes == []
    requires AddTransaction(s.core, |s.blocks|, e.blk.minerTx.hash, e.blk.minerTx).Ok?
    requires e.blk.id !in s.blockHeights
    requires s.blocks != [] ==> e.blk.prevId in s.blockHeights && s.blockHeights[e.blk.prevId] == |s.blocks| - 1
    ensures AddBlock(s, e.blk, e.meta, e.txs).Ok?
  {
    var m := AddTransaction(s.core, |s.blocks|, e.blk.minerTx.hash, e.blk.minerTx).state;
    assert AddTxs(m, |s.blocks|, [], []) == Ok(m, []);
  }

  lemma GensGoIn(c: Core, fs: seq<Filed>, height: nat, tx: Transaction)
    requires Holds(c, fs) && forall i :: 0 <= i < |tx.vin| ==> tx.vin[i].Gen?
    requires forall i :: 0 <= i < |tx.vout| ==> OutputAccepted(tx, i)
    requires forall t :: 0 <= t < |fs| ==> fs[t].hash != tx.hash
    ensures AddTransaction(c, height, tx.hash, tx).Ok?
  {
    NoImages(tx.vin);
    forall t | 0 <= t < |c.txOutputs| ensures c.txOutputs[t].key == t { assert ListHolds(c, t, fs[t]); }
    AcceptedExactly(c, Filed(tx.hash, height, tx));
  }

  lemma FirstGoesIn()
    ensures Accepted([FIRST])
    ensures Run([Add(FIRST)]).now == State(Replay([FIRST]), [FIRST])
    ensures Bucket(Replay([FIRST]).core.outs, 0) == []
  {
    EmptyHolds();
    GensGoIn(NO_TXS, [], 0, OLD_MINER);
    LoneAdded(EMPTY, FIRST);
    assert [FIRST][..0] == [] && [Add(FIRST)][..0] == [];
    assert OLD_MINER.vin[0].Gen?;
    BlockZeroRows(EMPTY, FIRST);
    FiledZeroCases(OLD_MINER, 1);
    assert NumRctOuts(FIRST.blk, []) == 0;
  }

  /** A single output filed under amount 0: its index, and what it leaves alone. */
  lemma FirstIndex(o: Outputs, f: Filed)
    requires NoHoles(o) && |f.tx.vout| == 1 && FiledAmount(f.tx, 0) == 0
    requires AddOutputs(o, f.height, f.hash, f.tx).Ok?
    ensures AddOutputs(o, f.height, f.hash, f.tx).value == [|Bucket(o, 0)|]
    ensures Bucket(AddOutputs(o, f.height, f.hash, f.tx).state, 5) == Bucket(o, 5)
  {
    var place := Placer(f.height, f.hash, f.tx);
    EachPrefix(place, o, 0, 1);
    EachNext(place, o, 0, 1);
    AddOneFiles(o, f, 0);
  }

  ghost predicate SecondFits(s: Store, fs: seq<Filed>) {
    && Holds(s.core, fs) && Bucket(s.core.outs, 0) == [] && |Bucket(s.core.outs, 5)| == 1
    && 2 !in s.blockHeights && 1 in s.blockHeights && s.blockHeights[1] == |s.blocks| - 1
    && forall t :: 0 <= t < |fs| ==> fs[t].hash != 2
  }

  lemma SecondAdded(s: Store, fs: seq<Filed>)
    requires SecondFits(s, fs)
    ensures AddBlock(s, SECOND.blk, META, []).Ok?
    ensures var f := Filed(2, |s.blocks|, TWO_GENS);
            var c := AddTransaction(s.core, |s.blocks|, 2, TWO_GENS).state;
            && AddBlock(s, SECOND.blk, META, []).state.core == c
            && Holds(c, fs + [f]) && c.txOutputs[|fs|].value == [0] && |Bucket(c.outs, 5)| == 1
  {
    assert TWO_GENS.vin[0].Gen?;
    GensGoIn(s.core, fs, |s.blocks|, TWO_GENS);
    LoneAdded(s, SECOND);
    AddBlockParts(s, SECOND.blk, META, []);
    var f := Filed(2, |s.blocks|, TWO_GENS);
    HoldsGrows(s.core, fs, f);
    AddedShape(s.core, f.height, 2, TWO_GENS);
    AddTxBodyShape(s.core.(spent := s.core.spent + Images(TWO_GENS.vin)), f.height, 2, TWO_GENS);
    FirstIndex(s.core.outs, f);
  }

  lemma LonePops(s: Store)
    requires RemoveBlock(s).Ok? && s.blocks[|s.blocks| - 1].blk.txHashes == []
    requires PopTx(s.core, s.blocks[|s.blocks| - 1].blk.minerTx.hash).Ok?
    ensures PopBlock(s).Ok?
    ensures PopBlock(s).state.core == PopTx(s.core, s.blocks[|s.blocks| - 1].blk.minerTx.hash).state
  {
    assert PopTxs(s.core, []) == Ok(s.core, []);
  }

  lemma SecondOff(c: Core, fs: seq<Filed>, height: nat)
    requires Holds(c, fs + [Filed(2, height, TWO_GENS)])
    requires c.txOutputs[|fs|].value == [0] && |Bucket(c.outs, 5)| == 1
    ensures PopTx(c, 2).Ok? && Bucket(PopTx(c, 2).state.outs, 5) == []
  {
    PopGoesThrough(c, fs, Filed(2, height, TWO_GENS));
  }

  /** The pop goes through, and takes the row under amount 5 with it. */
  lemma SecondPopped(s: Store, fs: seq<Filed>)
    requires SecondFits(s, fs)
    ensures var r := AddBlock(s, SECOND.blk, META, []);
            r.Ok? && PopBlock(r.state).Ok? && Bucket(PopBlock(r.state).state.core.outs, 5) == []
  {
    SecondAdded(s, fs);
    var r := AddBlock(s, SECOND.blk, META, []).state;
    SecondOff(r.core, fs, |s.blocks|);
    BlockRowUndone(s.(core := r.core), SECOND.blk, META, NumRctOuts(SECOND.blk, []));
    LonePops(r);
  }

  lemma OnlyRow(c: Core, j: nat)
    requires OutputsHold(c, [Filed(1, 0, OLD_MINER)]) && j < |Bucket(c.outs, 5)|
    ensures c.txOutputs[0].value == [j]
  {
    var f := Filed(1, 0, OLD_MINER);
    assert ListHolds(c, 0, [f][0]);
    assert RowOwned(c, [f], 5, j);
  }

  lemma FirstRow(c: Core)
    requires OutputsHold(c, [Filed(1, 0, OLD_MINER)])
    ensures |Bucket(c.outs, 5)| == 1
  {
    var f := Filed(1, 0, OLD_MINER);
    assert ListHolds(c, 0, [f][0]);
    assert ResolvesAt(c.outs, f, 0, c.txOutputs[0].value[0]);
    OnlyRow(c, 0);
    OnlyRow(c, |Bucket(c.outs, 5)| - 1);
    assert [0][0] == [|Bucket(c.outs, 5)| - 1][0];
  }

  lemma FirstHeights(blocks: seq<BlockRow>, heights: map<Hash, nat>, chain: seq<Entry>)
    requires |chain| == 1 && chain[0] == FIRST && BlocksHold(blocks, heights, chain)
    ensures 2 !in heights && 1 in heights && heights[1] == |blocks| - 1
  {
  }

  lemma {:induction false} FirstFiled(chain: seq<Entry>)
    requires |chain| == 1 && chain[0] == FIRST
    ensures FiledChain(chain) == [Filed(1, 0, OLD_MINER)]
  {
    assert chain[..0] == [];
  }

  lemma {:induction false} SecondFitsFirst(chain: seq<Entry>)
    requires |chain| == 1 && chain[0] == FIRST && Accepted(chain)
    requires Blocks(State(Replay(chain), chain)) && Bucket(Replay(chain).core.outs, 0) == []
    ensures SecondFits(Replay(chain), FiledChain(chain))
  {
    ReplayHolds(chain);
    FirstFiled(chain);
    FirstHeights(Replay(chain).blocks, Replay(chain).blockHeights, chain);
    FirstRow(Replay(chain).core);
  }

  lemma {:induction false} RunPops(steps: seq<Step>)
    requires PopBlock(Run(steps).now.store).Ok? && Run(steps).now.chain != []
    ensures var s := Run(steps).now;
            Run(steps + [Pop]).now == State(PopBlock(s.store).state, s.chain[..|s.chain| - 1])
  {
    assert (steps + [Pop])[..|steps|] == steps;
  }

  lemma {:induction false} WrongRow(steps: seq<Step>, fs: seq<Filed>)
    requires SecondFits(Run(steps).now.store, fs)
    ensures var s := Run(steps).now;
            var t := Run(steps + [Add(SECOND)] + [Pop]).now;
            t.chain == s.chain && Bucket(t.store.core.outs, 5) == []
  {
    SecondPopped(Run(steps).now.store, fs);
    RunAdds(steps, SECOND);
    RunPops(steps + [Add(SECOND)]);
  }

  /** Both blocks go in and the second is popped: the pop goes through and takes off the row of the
      first, so that the store is not the one that the first block alone builds. */
  lemma WrongRowPopped()
    ensures var s := Run([Add(FIRST)] + [Add(SECOND)] + [Pop]).now;
            s.chain == [FIRST] && Bucket(s.store.core.outs, 5) == [] && |Bucket(Replay([FIRST]).core.outs, 5)| == 1
  {
    FirstGoesIn();
    RunBlocks([Add(FIRST)]);
    SecondFitsFirst([FIRST]);
    WrongRow([Add(FIRST)], FiledChain([FIRST]));
  }

  // ----- another block's transaction, popped

  const COIN: Entry := Entry(Block(1, 0, Bare(1, [Gen(0)]), []), META, [])

  /** A coinbase of the same hash, which is never filed. */
  const SHADOW: Entry := Entry(Block(2, 1, Bare(1, [ToScript]), []), META, [])

  lemma ScriptAborts(c: Core, height: nat, hash: Hash)
    ensures AddTransaction(c, height, hash, Bare(hash, [ToScript])) == Ok(c, false)
  {
    assert [ToScript][..0] == [] && ImageList([ToScript]) == [];
    assert AddInputs(c, [ToScript], 0) == Ok(c, true);
    assert AddInputs(c, [ToScript], 1) == Ok(c, false);
    assert c.spent - Images([ToScript]) == c.spent;
  }

  lemma LoneShape(s: Store, e: Entry)
    requires e.txs == [] && AddBlock(s, e.blk, e.meta, e.txs).Ok?
    ensures var t := AddBlock(s, e.blk, e.meta, e.txs).state;
            && t.core == AddTransaction(s.core, |s.blocks|, e.blk.minerTx.hash, e.blk.minerTx).state
            && t.blockHeights == s.blockHeights[e.blk.id := |s.blocks|] && |t.blocks| == |s.blocks| + 1
            && RemoveBlock(t).Ok? && t.blocks[|t.blocks| - 1].blk == e.blk
  {
    AddBlockParts(s, e.blk, e.meta, e.txs);
    var t := AddBlock(s, e.blk, e.meta, e.txs).state;
    assert AddTxs(t.core, |s.blocks|, [], []) == Ok(t.core, []);
    BlockRowUndone(s.(core := t.core), e.blk, e.meta, NumRctOuts(e.blk, e.txs));
  }

  lemma CoinGoesIn()
    ensures AddBlock(EMPTY, COIN.blk, META, []).Ok?
    ensures var t := AddBlock(EMPTY, COIN.blk, META, []).state;
            PopTx(t.core, 1).Ok? && PopTx(t.core, 1).state == NO_TXS && |t.blocks| == 1 && t.blockHeights == map[1 := 0]
  {
    SevenSpent();
    BareAdded(NO_TXS, 0, 1, [Gen(0)]);
    LoneAdded(EMPTY, COIN);
    LoneShape(EMPTY, COIN);
    TransactionUndone(NO_TXS, 0, 1, Bare(1, [Gen(0)]));
  }

  lemma ShadowPopped(s: Store)
    requires |s.blocks| == 1 && s.blockHeights == map[1 := 0] && PopTx(s.core, 1).Ok?
    ensures var r := AddBlock(s, SHADOW.blk, META, []);
            r.Ok? && PopBlock(r.state).Ok? && PopBlock(r.state).state.core == PopTx(s.core, 1).state
  {
    ScriptAborts(s.core, 1, 1);
    LoneAdded(s, SHADOW);
    LoneShape(s, SHADOW);
    LonePops(AddBlock(s, SHADOW.blk, META, []).state);
  }

  /** Both blocks go in and the second is popped: its own transaction was never filed, and the pop
      takes off the one of the first block, which has the same hash. */
  lemma WrongTransactionPopped()
    ensures var s := Run([] + [Add(COIN)] + [Add(SHADOW)] + [Pop]).now;
            s.chain == [COIN] && s.store.core.txs == [] && |FiledChain([COIN])| == 1
  {
    var steps: seq<Step> := [];
    CoinGoesIn();
    RunAdds(steps, COIN);
    ShadowPopped(Run(steps + [Add(COIN)]).now.store);
    RunAdds(steps + [Add(COIN)], SHADOW);
    RunPops(steps + [Add(COIN)] + [Add(SHADOW)]);
  }
}
