/** Which transactions are filed, over every run of any blocks. */
module Filing {
  import opened Tables
  import opened Ledger
  import opened Rounds
  import opened Store
  import opened BlockOps
  import opened Undo
  import opened UndoExact
  import opened OutputIndex
  import opened Runs
  import opened Spending

  predicate SupportedEntry(e: Entry) {
    AllSupported(e.blk.minerTx.vin) && forall i :: 0 <= i < |e.txs| ==> AllSupported(e.txs[i].vin)
  }

  predicate SupportedSteps(steps: seq<Step>) {
    forall i :: 0 <= i < |steps| && steps[i].Add? ==> SupportedEntry(steps[i].entry)
  }

  /** A hash for each transaction, as in every block that was accepted. */
  predicate Sized(chain: seq<Entry>) {
    forall i :: 0 <= i < |chain| ==> |chain[i].txs| == |chain[i].blk.txHashes|
  }

  // ----- the transactions of a chain, in the order they were filed

  /** An unsupported input keeps a transaction from being filed. */
  function FileTx(fs: seq<Filed>, f: Filed): seq<Filed> {
    if AllSupported(f.tx.vin) then fs + [f] else fs
  }

  /** The list fs followed by the first n transactions of a block. */
  function FiledTxs(fs: seq<Filed>, e: Entry, height: nat, n: nat): seq<Filed>
    requires n <= |e.txs| && n <= |e.blk.txHashes|
  {
    if n == 0 then fs
    else FileTx(FiledTxs(fs, e, height, n - 1), Filed(e.blk.txHashes[n - 1], height, e.txs[n - 1]))
  }

  function FiledMiner(e: Entry, height: nat): Filed {
    Filed(e.blk.minerTx.hash, height, e.blk.minerTx)
  }

  /** The list fs followed by the transactions of a block, the miner transaction first. */
  function FiledBlock(fs: seq<Filed>, e: Entry, height: nat): seq<Filed> {
    var n := if |e.txs| <= |e.blk.txHashes| then |e.txs| else |e.blk.txHashes|;
    FiledTxs(FileTx(fs, FiledMiner(e, height)), e, height, n)
  }

  function FiledChain(chain: seq<Entry>): seq<Filed> {
    if chain == [] then []
    else FiledBlock(FiledChain(chain[..|chain| - 1]), chain[|chain| - 1], |chain| - 1)
  }

  lemma {:induction false} FiledTxsCount(fs: seq<Filed>, e: Entry, height: nat, n: nat)
    requires n <= |e.txs| && n <= |e.blk.txHashes|
    ensures |FiledTxs(fs, e, height, n)| == |fs| + SupportedCount(e.txs, n)
  {
    if n > 0 { FiledTxsCount(fs, e, height, n - 1); }
  }

  /** A block files as many transactions as have supported inputs only. */
  lemma {:induction false} FiledBlockCount(fs: seq<Filed>, e: Entry, height: nat)
    requires |e.txs| == |e.blk.txHashes|
    ensures |FiledBlock(fs, e, height)| <= |fs| + 1 + |e.txs|
    ensures |FiledBlock(fs, e, height)| == |fs| + 1 + |e.txs| <==> SupportedEntry(e)
  {
    FiledTxsCount(FileTx(fs, FiledMiner(e, height)), e, height, |e.txs|);
    SupportedCountFull(e.txs, |e.txs|);
    if SupportedEntry(e) { AllCounted(e.txs, |e.txs|); }
  }

  lemma {:induction false} AllCounted(txs: seq<Transaction>, n: nat)
    requires n <= |txs| && forall i :: 0 <= i < n ==> AllSupported(txs[i].vin)
    ensures SupportedCount(txs, n) == n
  {
    if n > 0 { AllCounted(txs, n - 1); }
  }

  // ----- what holds of the tables that file the transactions fs

  /** The transaction table lists fs, and the hash index finds each of them. */
  ghost predicate TablesHold(c: Core, fs: seq<Filed>) {
    && |c.txs| == |fs|
    && (forall t :: 0 <= t < |fs| ==>
          && c.txs[t] == Row(t, fs[t].tx) && fs[t].hash in c.txIndices
          && c.txIndices[fs[t].hash] == TxIndex(t, fs[t].tx.unlockTime, fs[t].height))
    && (forall h :: h in c.txIndices ==> c.txIndices[h].txId < |fs| && fs[c.txIndices[h].txId].hash == h)
  }

  // ----- one more transaction, and one less

  lemma TablesGrow(c: Core, fs: seq<Filed>, f: Filed)
    requires TablesHold(c, fs) && AddTransaction(c, f.height, f.hash, f.tx).Ok?
    ensures TablesHold(AddTransaction(c, f.height, f.hash, f.tx).state, FileTx(fs, f))
  {
    if AllSupported(f.tx.vin) {
      AddedShape(c, f.height, f.hash, f.tx);
      AddTxBodyShape(c.(spent := c.spent + Images(f.tx.vin)), f.height, f.hash, f.tx);
    } else {
      AddTransactionTables(c, f.height, f.hash, f.tx);
    }
  }

  /** A removal that goes through finds the transaction filed last. */
  lemma {:induction false} LastFound(c: Core, fs: seq<Filed>, f: Filed)
    requires TablesHold(c, fs + [f])
    ensures f.hash in c.txIndices && c.txIndices[f.hash].txId == |fs|
    ensures Find(c.txs, |fs|) == Some(|fs|) && GetTx(c, f.hash) == Some(f.tx)
  {
    assert (fs + [f])[|fs|] == f;
    assert c.txs[|c.txs| - 1] == Row(|fs|, f.tx);
  }

  lemma TablesShrink(c: Core, fs: seq<Filed>, f: Filed)
    requires TablesHold(c, fs + [f]) && PopTx(c, f.hash).Ok?
    ensures TablesHold(PopTx(c, f.hash).state, fs) && PopTx(c, f.hash).value == f.tx
  {
    LastFound(c, fs, f);
    PopTxTables(c, f.hash);
    var t := PopTx(c, f.hash).state;
    assert t.txs == c.txs[..|fs|];
    TablesWithoutLast(c, fs, f, t);
  }

  lemma TablesWithoutLast(c: Core, fs: seq<Filed>, f: Filed, t: Core)
    requires TablesHold(c, fs + [f]) && t.txs == c.txs[..|fs|] && t.txIndices == c.txIndices - {f.hash}
    ensures TablesHold(t, fs)
  {
    assert forall i :: 0 <= i < |fs| ==> (fs + [f])[i] == fs[i];
    assert (fs + [f])[|fs|] == f;
  }

  // ----- one more block, for any property of tables and filed transactions

  ghost predicate GrowsAt(P: (Core, seq<Filed>) -> bool, c: Core, fs: seq<Filed>, f: Filed) {
    P(c, fs) && AddTransaction(c, f.height, f.hash, f.tx).Ok? ==>
    P(AddTransaction(c, f.height, f.hash, f.tx).state, FileTx(fs, f))
  }

  lemma {:induction false} NextGrows(P: (Core, seq<Filed>) -> bool, c: Core, fs: seq<Filed>, e: Entry,
                                     height: nat, k: nat)
    requires |e.txs| == |e.blk.txHashes| && k < |e.txs|
    requires forall d, gs, f :: GrowsAt(P, d, gs, f)
    requires P(c, FiledTxs(fs, e, height, k)) && AddTransaction(c, height, e.blk.txHashes[k], e.txs[k]).Ok?
    ensures P(AddTransaction(c, height, e.blk.txHashes[k], e.txs[k]).state, FiledTxs(fs, e, height, k + 1))
  {
    assert GrowsAt(P, c, FiledTxs(fs, e, height, k), Filed(e.blk.txHashes[k], height, e.txs[k]));
  }

  lemma {:induction false} TxsGrow(P: (Core, seq<Filed>) -> bool, c: Core, fs: seq<Filed>, e: Entry, height: nat)
    requires |e.txs| == |e.blk.txHashes| && forall d, gs, f :: GrowsAt(P, d, gs, f)
    requires P(c, fs) && AddTxs(c, height, e.blk.txHashes, e.txs).Ok?
    ensures P(AddTxs(c, height, e.blk.txHashes, e.txs).state, FiledTxs(fs, e, height, |e.txs|))
  {
    var add := Adder(height, e.blk.txHashes, e.txs);
    var Q := (d: Core, vs: seq<bool>, k: nat) => k <= |e.txs| && P(d, FiledTxs(fs, e, height, k));
    forall d, vs, k | 0 <= k < |e.txs| ensures KeptAt(add, Q, d, vs, k) {
      if Q(d, vs, k) && add(d, k).Ok? { NextGrows(P, d, fs, e, height, k); }
    }
    assert FiledTxs(fs, e, height, 0) == fs;
    EachKeeps(add, Q, c, |e.txs|);
  }

  lemma {:induction false} BlockGrows(P: (Core, seq<Filed>) -> bool, s: Store, fs: seq<Filed>, e: Entry)
    requires forall d, gs, f :: GrowsAt(P, d, gs, f)
    requires P(s.core, fs) && AddBlock(s, e.blk, e.meta, e.txs).Ok?
    ensures |e.txs| == |e.blk.txHashes|
    ensures P(AddBlock(s, e.blk, e.meta, e.txs).state.core, FiledBlock(fs, e, |s.blocks|))
  {
    AddBlockParts(s, e.blk, e.meta, e.txs);
    var f := FiledMiner(e, |s.blocks|);
    assert GrowsAt(P, s.core, fs, f);
    TxsGrow(P, AddTransaction(s.core, |s.blocks|, f.hash, f.tx).state, FileTx(fs, f), e, |s.blocks|);
  }

  lemma TablesGrowAt(c: Core, fs: seq<Filed>, f: Filed)
    ensures GrowsAt(TablesHold, c, fs, f)
  {
    if TablesHold(c, fs) && AddTransaction(c, f.height, f.hash, f.tx).Ok? { TablesGrow(c, fs, f); }
  }

  // ----- one block less

  ghost predicate ShrinksAt(P: (Core, seq<Filed>) -> bool, c: Core, fs: seq<Filed>, f: Filed) {
    AllSupported(f.tx.vin) && P(c, fs + [f]) && PopTx(c, f.hash).Ok? ==> P(PopTx(c, f.hash).state, fs)
  }

  lemma TablesShrinkAt(c: Core, fs: seq<Filed>, f: Filed)
    ensures ShrinksAt(TablesHold, c, fs, f)
  {
    if AllSupported(f.tx.vin) && TablesHold(c, fs + [f]) && PopTx(c, f.hash).Ok? { TablesShrink(c, fs, f); }
  }

  lemma {:induction false} LastShrinks(P: (Core, seq<Filed>) -> bool, c: Core, fs: seq<Filed>, e: Entry,
                                       height: nat, k: nat)
    requires |e.txs| == |e.blk.txHashes| && k < |e.txs| && AllSupported(e.txs[k].vin)
    requires forall d, gs, f :: ShrinksAt(P, d, gs, f)
    requires P(c, FiledTxs(fs, e, height, k + 1)) && PopTx(c, e.blk.txHashes[k]).Ok?
    ensures P(PopTx(c, e.blk.txHashes[k]).state, FiledTxs(fs, e, height, k))
  {
    assert ShrinksAt(P, c, FiledTxs(fs, e, height, k), Filed(e.blk.txHashes[k], height, e.txs[k]));
  }

  lemma {:induction false} TxsShrink(P: (Core, seq<Filed>) -> bool, c: Core, fs: seq<Filed>, e: Entry, height: nat)
    requires |e.txs| == |e.blk.txHashes| && SupportedEntry(e) && forall d, gs, f :: ShrinksAt(P, d, gs, f)
    requires P(c, FiledTxs(fs, e, height, |e.txs|)) && PopTxs(c, e.blk.txHashes).Ok?
    ensures P(PopTxs(c, e.blk.txHashes).state, fs)
  {
    var pop := Popper(e.blk.txHashes);
    var Q := (d: Core, k: nat) => k <= |e.txs| && P(d, FiledTxs(fs, e, height, k));
    forall d, k | 0 <= k < |e.txs| ensures KeptBackAt(pop, Q, d, k) {
      if Q(d, k + 1) && pop(d, k).Ok? { LastShrinks(P, d, fs, e, height, k); }
    }
    assert FiledTxs(fs, e, height, 0) == fs;
    BackKeeps(pop, Q, c, |e.txs|, []);
  }

  /** Whatever rows a pop takes out of the output tables: it takes off the transactions of the last
      block if all of them were filed. */
  lemma {:induction false} BlockShrinks(s: Store, fs: seq<Filed>, e: Entry, height: nat)
    requires |e.txs| == |e.blk.txHashes| && SupportedEntry(e)
    requires s.blocks != [] && s.blocks[|s.blocks| - 1].blk == e.blk
    requires TablesHold(s.core, FiledBlock(fs, e, height)) && PopBlock(s).Ok?
    ensures TablesHold(PopBlock(s).state.core, fs)
  {
    PopParts(s);
    forall c, gs, f ensures ShrinksAt(TablesHold, c, gs, f) { TablesShrinkAt(c, gs, f); }
    TxsShrink(TablesHold, s.core, FileTx(fs, FiledMiner(e, height)), e, height);
    TablesShrink(PopTxs(s.core, e.blk.txHashes).state, fs, FiledMiner(e, height));
  }

  /** A pop takes off a row for each hash of the block, filed or not. */
  lemma PopRows(s: Store)
    requires PopBlock(s).Ok?
    ensures s.blocks != []
    ensures |s.core.txs| == |PopBlock(s).state.core.txs| + 1 + |s.blocks[|s.blocks| - 1].blk.txHashes|
  {
    PopParts(s);
    var blk := s.blocks[|s.blocks| - 1].blk;
    PopTxsRows(s.core, blk.txHashes);
    PopTxTables(PopTxs(s.core, blk.txHashes).state, blk.minerTx.hash);
  }

  /** So the tables list the transactions before the block again if and only if all of it was filed. */
  lemma {:induction false} BlockShrinksExactly(s: Store, fs: seq<Filed>, e: Entry, height: nat)
    requires |e.txs| == |e.blk.txHashes|
    requires s.blocks != [] && s.blocks[|s.blocks| - 1].blk == e.blk
    requires TablesHold(s.core, FiledBlock(fs, e, height)) && PopBlock(s).Ok?
    ensures TablesHold(PopBlock(s).state.core, fs) <==> SupportedEntry(e)
  {
    PopRows(s);
    FiledBlockCount(fs, e, height);
    if SupportedEntry(e) { BlockShrinks(s, fs, e, height); }
  }

  // ----- every run

  /** The block tables hold the chain and the transaction tables list what it filed. */
  ghost predicate Listed(s: State) {
    Blocks(s) && Sized(s.chain) && TablesHold(s.store.core, FiledChain(s.chain))
  }

  lemma {:induction false} AddListed(s: State, e: Entry)
    requires Listed(s) && Try(s, Add(e)).Some?
    ensures var t := Try(s, Add(e)).value;
            Sized(t.chain) && TablesHold(t.store.core, FiledChain(t.chain))
  {
    forall c, fs, f ensures GrowsAt(TablesHold, c, fs, f) { TablesGrowAt(c, fs, f); }
    BlockGrows(TablesHold, s.store, FiledChain(s.chain), e);
    assert (s.chain + [e])[..|s.chain|] == s.chain;
  }

  /** A pop of a block with an unsupported input that goes through all the same. */
  predicate UnfiledPop(s: State, step: Step) {
    step.Pop? && Try(s, step).Some? && s.chain != [] && !SupportedEntry(s.chain[|s.chain| - 1])
  }

  lemma {:induction false} ListedLast(s: State)
    requires Listed(s) && s.chain != []
    ensures var n := |s.chain| - 1;
            var e := s.chain[n];
            && Sized(s.chain[..n]) && |e.txs| == |e.blk.txHashes|
            && s.store.blocks != [] && s.store.blocks[|s.store.blocks| - 1].blk == e.blk
            && TablesHold(s.store.core, FiledBlock(FiledChain(s.chain[..n]), e, n))
  {
  }

  lemma {:induction false} PopListed(s: State)
    requires Listed(s) && Try(s, Pop).Some?
    ensures var t := Try(s, Pop).value;
            Sized(t.chain) && (TablesHold(t.store.core, FiledChain(t.chain)) <==> !UnfiledPop(s, Pop))
  {
    BlockPopped(s);
    ListedLast(s);
    var n := |s.chain| - 1;
    BlockShrinksExactly(s.store, FiledChain(s.chain[..n]), s.chain[n], n);
  }

  /** Over every run of any blocks: the transaction tables list exactly the surviving transactions
      that were filed, all along the run, if and only if no block with an unsupported input is ever
      popped. */
  lemma {:induction false} RunListsExactly(steps: seq<Step>)
    ensures Along(Listed, steps) <==> Never(UnfiledPop, steps)
    ensures Never(UnfiledPop, steps) ==> Listed(Run(steps).now) && Listed(Run(steps).saved)
  {
    forall i, s | 0 <= i < |steps| ensures ExactAt(Listed, UnfiledPop, s, steps[i]) {
      if Listed(s) && Try(s, steps[i]).Some? {
        match steps[i]
        case Add(e) => BlockAdded(s, e); AddListed(s, e);
        case Pop => BlockPopped(s); PopListed(s);
        case _ =>
      }
    }
    RunExactly(Listed, UnfiledPop, steps);
  }

  // ----- the images of the surviving transactions

  function Flat<T>(s: seq<T>, list: T -> seq<KeyImage>): seq<KeyImage> {
    if s == [] then [] else Flat(s[..|s| - 1], list) + list(s[|s| - 1])
  }

  lemma {:induction false} FlatTotal<T, U>(s: seq<T>, list: T -> seq<KeyImage>,
                                           t: seq<U>, of: U -> multiset<KeyImage>)
    requires |s| == |t| && forall i :: 0 <= i < |s| ==> multiset(list(s[i])) == of(t[i])
    ensures multiset(Flat(s, list)) == Total(t, of)
  {
    if s != [] {
      var n := |s| - 1;
      FlatTotal(s[..n], list, t[..n], of);
      assert multiset(Flat(s, list)) == multiset(Flat(s[..n], list)) + multiset(list(s[n]));
    }
  }

  function FiledImages(f: Filed): seq<KeyImage> { ImageList(f.tx.vin) }

  function ImagesOf(fs: seq<Filed>): seq<KeyImage> { Flat(fs, FiledImages) }

  lemma {:induction false} ImagesOfRows(t: Table<Transaction>, fs: seq<Filed>)
    requires |t| == |fs| && forall i :: 0 <= i < |fs| ==> t[i].value == fs[i].tx
    ensures multiset(ImagesOf(fs)) == AllImages(t)
  {
    forall i | 0 <= i < |fs| ensures multiset(FiledImages(fs[i])) == RowImages(t[i]) { }
    FlatTotal(fs, FiledImages, t, RowImages);
  }

  /** No surviving transaction spends an image twice or one that another spends, and the spent set is
      exactly their images. */
  ghost predicate SpendsOnce(s: State) {
    var images := ImagesOf(FiledChain(s.chain));
    Distinct(images) && forall k :: k in s.store.core.spent <==> k in images
  }

  lemma {:induction false} ListedSpendsOnce(s: State)
    requires Listed(s) && PaidState(s)
    ensures SpendsOnce(s)
  {
    var images := ImagesOf(FiledChain(s.chain));
    ImagesOfRows(s.store.core.txs, FiledChain(s.chain));
    DistinctOnce(images);
    forall k ensures k in s.store.core.spent <==> k in images {
      assert k in multiset(s.store.core.spent) <==> k in multiset(images);
    }
  }

  /** Over every run of any blocks without those pops and without blocks that make the store forget. */
  lemma {:induction false} RunSpends(steps: seq<Step>)
    requires Never(UnfiledPop, steps) && Never(ForgettingStep, steps)
    ensures SpendsOnce(Run(steps).now) && SpendsOnce(Run(steps).saved)
  {
    RunListsExactly(steps);
    RunPaysExactly(steps);
    ListedSpendsOnce(Run(steps).now);
    ListedSpendsOnce(Run(steps).saved);
  }

  // ----- supported inputs, which can be told before the run

  ghost predicate SupportedState(s: State) {
    forall i :: 0 <= i < |s.chain| ==> SupportedEntry(s.chain[i])
  }

  lemma {:induction false} SupportedStates(steps: seq<Step>)
    requires SupportedSteps(steps)
    ensures SupportedState(Run(steps).now)
  {
    forall i, s | 0 <= i < |steps| ensures KeptBy(SupportedState, steps[i], s) {
    }
    RunKeeps(SupportedState, steps);
  }

  lemma {:induction false} SupportedIsHarmless(steps: seq<Step>)
    requires SupportedSteps(steps)
    ensures Never(UnfiledPop, steps) && Never(ForgettingStep, steps)
  {
    if steps != [] {
      var before, last := steps[..|steps| - 1], steps[|steps| - 1];
      SupportedIsHarmless(before);
      SupportedStates(before);
      if last.Add? {
        var e := last.entry;
        assert SupportedEntry(e);
        SupportedNeverForgets(SpentAfter(Run(before).now.store.core.spent, e.blk.minerTx), e.txs, |e.txs|);
      }
    }
  }

  /** No image is spent twice, over every run of blocks with supported inputs. */
  lemma {:induction false} RunSpendsOnce(steps: seq<Step>)
    requires SupportedSteps(steps)
    ensures Listed(Run(steps).now) && SpendsOnce(Run(steps).now)
    ensures Listed(Run(steps).saved) && SpendsOnce(Run(steps).saved)
  {
    SupportedIsHarmless(steps);
    RunListsExactly(steps);
    RunSpends(steps);
  }
}
