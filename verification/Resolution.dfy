/** How every output is found again, and when the store is the one its blocks build, over every run
    of any blocks. */
module Resolution {
  import opened Tables
  import opened Ledger
  import opened Rounds
  import opened Store
  import opened BlockOps
  import opened Undo
  import opened UndoExact
  import opened OutputIndex
  import opened PopOrThrow
  import opened Runs
  import opened Filing

  /** Every index list resolves, and every row of every bucket leads through the global table and
      the hash index to the transaction whose list names it. */
  ghost predicate OutputsHold(c: Core, fs: seq<Filed>) {
    && NoHoles(c.outs) && |c.txOutputs| == |fs|
    && (forall t :: 0 <= t < |fs| ==> ListHolds(c, t, fs[t]))
    && (forall a, k :: 0 <= k < |Bucket(c.outs, a)| ==> RowOwned(c, fs, a, k))
  }

  ghost predicate ListHolds(c: Core, t: nat, f: Filed)
    requires t < |c.txOutputs|
  {
    && c.txOutputs[t].key == t && |c.txOutputs[t].value| == |f.tx.vout|
    && forall i :: 0 <= i < |f.tx.vout| ==> ResolvesAt(c.outs, f, i, c.txOutputs[t].value[i])
  }

  ghost predicate RowOwned(c: Core, fs: seq<Filed>, a: Amount, k: nat)
    requires |c.txOutputs| == |fs| && k < |Bucket(c.outs, a)|
  {
    var id := Bucket(c.outs, a)[k].value.outputId;
    && id < |c.outs.outputTxs|
    && c.outs.outputTxs[id].value.txHash in c.txIndices
    && var t := c.txIndices[c.outs.outputTxs[id].value.txHash].txId;
       t < |fs| && OwnedBy(c.outs, a, k, fs[t], c.txOutputs[t].value)
  }

  /** The height entries of all outputs of the given kind that are filed under amount 0. */
  function AllHeights(fs: seq<Filed>, lists: Table<seq<nat>>, zyphora: bool): set<(nat, nat)>
    requires |lists| == |fs|
  {
    if fs == [] then {}
    else
      var n := |fs| - 1;
      AllHeights(fs[..n], lists[..n], zyphora) +
      HeightEntries(fs[n], lists[n].value, |fs[n].tx.vout|, zyphora)
  }

  predicate AllHaveTokens(fs: seq<Filed>) {
    forall t :: 0 <= t < |fs| ==> HasTokens(fs[t].tx)
  }

  /** The height indexes list exactly the outputs filed under amount 0, told apart by kind; where no
      token is missing, a row tells its kind by its token. */
  ghost predicate HeightsHold(c: Core, fs: seq<Filed>)
    requires |c.txOutputs| == |fs|
  {
    && c.outs.zyHeights == AllHeights(fs, c.txOutputs, true)
    && c.outs.nativeHeights == AllHeights(fs, c.txOutputs, false)
    && (AllHaveTokens(fs) ==> Indexed(c.outs))
  }

  ghost predicate Holds(c: Core, fs: seq<Filed>) {
    TablesHold(c, fs) && OutputsHold(c, fs) && HeightsHold(c, fs)
  }

  // ----- one more transaction

  lemma OutputsGrow(c: Core, fs: seq<Filed>, f: Filed)
    requires OutputsHold(c, fs) && |c.txs| == |fs| && AllSupported(f.tx.vin)
    requires AddTransaction(c, f.height, f.hash, f.tx).Ok?
    ensures OutputsHold(AddTransaction(c, f.height, f.hash, f.tx).state, fs + [f])
  {
    AddedShape(c, f.height, f.hash, f.tx);
    AddTxBodyShape(c.(spent := c.spent + Images(f.tx.vin)), f.height, f.hash, f.tx);
    AddOutputsFiles(c.outs, f);
    var r := AddOutputs(c.outs, f.height, f.hash, f.tx);
    var t := AddTransaction(c, f.height, f.hash, f.tx).state;
    IndexListsGrow(c, t, fs, f, r.value);
    RowsGrow(c, t, fs, f, r.value);
  }

  lemma IndexListsGrow(c: Core, t: Core, fs: seq<Filed>, f: Filed, indices: seq<nat>)
    requires OutputsHold(c, fs) && OutputsFiled(c.outs, t.outs, f, indices, |f.tx.vout|)
    requires t.txOutputs == c.txOutputs + [Row(|fs|, indices)]
    ensures forall j :: 0 <= j < |fs| + 1 ==> ListHolds(t, j, (fs + [f])[j])
  {
    forall j | 0 <= j < |fs| ensures ListHolds(t, j, fs[j]) {
      assert ListHolds(c, j, fs[j]);
      forall i | 0 <= i < |fs[j].tx.vout| ensures ResolvesAt(t.outs, fs[j], i, c.txOutputs[j].value[i]) {
        ExtendsKeepsResolves(c.outs, t.outs, fs[j], i, c.txOutputs[j].value[i]);
      }
    }
  }

  lemma RowsGrow(c: Core, t: Core, fs: seq<Filed>, f: Filed, indices: seq<nat>)
    requires OutputsHold(c, fs) && OutputsFiled(c.outs, t.outs, f, indices, |f.tx.vout|)
    requires t.txOutputs == c.txOutputs + [Row(|fs|, indices)] && f.hash !in c.txIndices
    requires f.hash in t.txIndices && t.txIndices[f.hash].txId == |fs|
    requires forall h :: h in c.txIndices ==> h in t.txIndices && t.txIndices[h] == c.txIndices[h]
    ensures forall a, k :: 0 <= k < |Bucket(t.outs, a)| ==> RowOwned(t, fs + [f], a, k)
  {
    forall a, k | 0 <= k < |Bucket(t.outs, a)| ensures RowOwned(t, fs + [f], a, k) {
      if k < |Bucket(c.outs, a)| {
        assert RowOwned(c, fs, a, k);
        var j := c.txIndices[c.outs.outputTxs[Bucket(c.outs, a)[k].value.outputId].value.txHash].txId;
        ExtendsKeepsOwned(c.outs, t.outs, a, k, fs[j], c.txOutputs[j].value, c.txOutputs[j].value);
        assert Bucket(t.outs, a)[k] == Bucket(c.outs, a)[k];
        assert OwnedBy(t.outs, a, k, (fs + [f])[j], t.txOutputs[j].value);
      } else {
        assert OwnedBy(t.outs, a, k, f, indices);
        assert OwnedBy(t.outs, a, k, (fs + [f])[|fs|], t.txOutputs[|fs|].value);
      }
    }
  }

  lemma HeightsGrow(c: Core, fs: seq<Filed>, f: Filed)
    requires |c.txOutputs| == |fs| && HeightsHold(c, fs) && AllSupported(f.tx.vin)
    requires AddTransaction(c, f.height, f.hash, f.tx).Ok?
    ensures var t := AddTransaction(c, f.height, f.hash, f.tx).state;
            |t.txOutputs| == |fs| + 1 && HeightsHold(t, fs + [f])
  {
    AddedShape(c, f.height, f.hash, f.tx);
    AddTxBodyShape(c.(spent := c.spent + Images(f.tx.vin)), f.height, f.hash, f.tx);
    AddOutputsHeights(c.outs, f);
    var lists := c.txOutputs + [Row(|c.txs|, AddOutputs(c.outs, f.height, f.hash, f.tx).value)];
    assert (fs + [f])[..|fs|] == fs && lists[..|fs|] == c.txOutputs;
    if AllHaveTokens(fs + [f]) {
      assert (fs + [f])[|fs|] == f;
      assert forall t :: 0 <= t < |fs| ==> (fs + [f])[t] == fs[t];
      AddOutputsIndexed(c.outs, f.height, f.hash, f.tx);
    }
  }

  lemma HoldsGrows(c: Core, fs: seq<Filed>, f: Filed)
    requires Holds(c, fs) && AddTransaction(c, f.height, f.hash, f.tx).Ok?
    ensures Holds(AddTransaction(c, f.height, f.hash, f.tx).state, FileTx(fs, f))
  {
    TablesGrow(c, fs, f);
    if AllSupported(f.tx.vin) {
      OutputsGrow(c, fs, f);
      HeightsGrow(c, fs, f);
    } else {
      AddTransactionTables(c, f.height, f.hash, f.tx);
      OutputsIgnoreSpent(c, AddTransaction(c, f.height, f.hash, f.tx).state, fs);
    }
  }

  lemma OutputsIgnoreSpent(c: Core, t: Core, fs: seq<Filed>)
    requires OutputsHold(c, fs) && t == c.(spent := t.spent)
    ensures OutputsHold(t, fs)
  {
    forall j | 0 <= j < |fs| ensures ListHolds(t, j, fs[j]) { assert ListHolds(c, j, fs[j]); }
    forall a, k | 0 <= k < |Bucket(t.outs, a)| ensures RowOwned(t, fs, a, k) { assert RowOwned(c, fs, a, k); }
  }

  // ----- every chain that was only added to

  lemma EmptyHolds()
    ensures Holds(NO_TXS, [])
  {
    assert TokenEntries([]) == {} && PlainEntries([]) == {};
  }

  lemma HoldsGrowsAt(c: Core, fs: seq<Filed>, f: Filed)
    ensures GrowsAt(Holds, c, fs, f)
  {
    if Holds(c, fs) && AddTransaction(c, f.height, f.hash, f.tx).Ok? { HoldsGrows(c, fs, f); }
  }

  lemma {:induction false} BlockHolds(s: Store, fs: seq<Filed>, e: Entry)
    requires Holds(s.core, fs) && AddBlock(s, e.blk, e.meta, e.txs).Ok?
    ensures |e.txs| == |e.blk.txHashes|
    ensures var t := AddBlock(s, e.blk, e.meta, e.txs).state;
            Holds(t.core, FiledBlock(fs, e, |s.blocks|)) && |t.blocks| == |s.blocks| + 1
  {
    forall c, gs, f ensures GrowsAt(Holds, c, gs, f) { HoldsGrowsAt(c, gs, f); }
    BlockGrows(Holds, s, fs, e);
    AddBlockParts(s, e.blk, e.meta, e.txs);
  }

  /** Every chain of any blocks that were accepted one after the other. */
  lemma {:induction false} ReplayHolds(chain: seq<Entry>)
    requires Accepted(chain)
    ensures Holds(Replay(chain).core, FiledChain(chain)) && |Replay(chain).blocks| == |chain|
  {
    if chain == [] {
      EmptyHolds();
    } else {
      var before, e := chain[..|chain| - 1], chain[|chain| - 1];
      ReplayHolds(before);
      BlockHolds(Replay(before), FiledChain(before), e);
    }
  }

  // ----- the store that the surviving blocks build

  /** The store is the one that the surviving blocks alone would have built. */
  ghost predicate Built(s: State) { Accepted(s.chain) && s.store == Replay(s.chain) }

  /** Then every surviving transaction and every output is found again. */
  lemma {:induction false} BuiltHolds(s: State)
    requires Built(s)
    ensures Holds(s.store.core, FiledChain(s.chain))
  {
    ReplayHolds(s.chain);
  }

  lemma {:induction false} AddBuilt(s: State, e: Entry)
    requires Built(s) && Try(s, Add(e)).Some?
    ensures Built(Try(s, Add(e)).value)
  {
    assert (s.chain + [e])[..|s.chain|] == s.chain;
  }

  /** A pop of a block that is not undoable, and that goes through all the same. */
  predicate WrongPop(s: State, step: Step) {
    && step.Pop? && Try(s, step).Some? && s.chain != []
    && var e := s.chain[|s.chain| - 1]; !UndoableBlock(e.blk, e.txs)
  }

  /** For any chain of any blocks: a pop that goes through leads to the store of the blocks below if
      and only if the block is undoable. */
  lemma {:induction false} PopBuiltExactly(s: State)
    requires Built(s) && Try(s, Pop).Some?
    ensures s.chain != [] && (Built(Try(s, Pop).value) <==> !WrongPop(s, Pop))
  {
    if s.chain != [] {
      var before, e := s.chain[..|s.chain| - 1], s.chain[|s.chain| - 1];
      ReplayHolds(before);
      if UndoableBlock(e.blk, e.txs) { BlockUndone(Replay(before), e.blk, e.meta, e.txs); }
      if PopBlock(s.store).state == Replay(before) {
        PopNeedsSupported(Replay(before), e.blk, e.meta, e.txs);
        PopNeedsUndoable(Replay(before), e.blk, e.meta, e.txs);
      }
    }
  }

  /** Over every run of any blocks: the store is the one that the surviving blocks alone would have
      built, all along the run, if and only if no pop of a block that is not undoable goes through. */
  lemma {:induction false} RunBuiltExactly(steps: seq<Step>)
    ensures Along(Built, steps) <==> Never(WrongPop, steps)
    ensures Never(WrongPop, steps) ==> Built(Run(steps).now) && Built(Run(steps).saved)
  {
    forall i, s | 0 <= i < |steps| ensures ExactAt(Built, WrongPop, s, steps[i]) {
      if Built(s) && Try(s, steps[i]).Some? {
        match steps[i]
        case Add(e) => AddBuilt(s, e);
        case Pop => PopBuiltExactly(s);
        case _ =>
      }
    }
    RunExactly(Built, WrongPop, steps);
  }

  // ----- agreeing amounts, which can be told before the run

  predicate AgreeingSteps(steps: seq<Step>) {
    forall i :: 0 <= i < |steps| && steps[i].Add? ==> AgreeingBlock(steps[i].entry.blk, steps[i].entry.txs)
  }

  /** On the store of any accepted chain: a pop of a block of supported inputs and agreeing amounts
      takes that block off, or throws because a Zyphora output of it has no token. */
  lemma {:induction false} PopTakesLast(chain: seq<Entry>)
    requires Accepted(chain) && (chain != [] ==> AgreeingBlock(chain[|chain| - 1].blk, chain[|chain| - 1].txs))
    ensures chain == [] ==> PopBlock(Replay(chain)) == Throw(EMPTY, BlockMissing)
    ensures chain != [] ==>
              var e := chain[|chain| - 1];
              if UndoableBlock(e.blk, e.txs)
              then PopBlock(Replay(chain)) == Ok(Replay(chain[..|chain| - 1]), (e.blk, Reversed(e.txs, |e.txs|)))
              else PopBlock(Replay(chain)).Throw?
  {
    if chain != [] {
      var before, e := chain[..|chain| - 1], chain[|chain| - 1];
      ReplayHolds(before);
      PopRestoresOrThrows(Replay(before), e.blk, e.meta, e.txs);
    }
  }

  ghost predicate AgreeingState(s: State) {
    forall i :: 0 <= i < |s.chain| ==> AgreeingBlock(s.chain[i].blk, s.chain[i].txs)
  }

  lemma {:induction false} AgreeingStates(steps: seq<Step>)
    requires AgreeingSteps(steps)
    ensures AgreeingState(Run(steps).now)
  {
    forall i, s | 0 <= i < |steps| ensures KeptBy(AgreeingState, steps[i], s) {
    }
    RunKeeps(AgreeingState, steps);
  }

  /** Blocks of supported inputs and agreeing amounts are never popped wrongly. */
  lemma {:induction false} AgreeingPopsWell(steps: seq<Step>)
    requires AgreeingSteps(steps)
    ensures Never(WrongPop, steps)
  {
    if steps != [] {
      var before := steps[..|steps| - 1];
      AgreeingPopsWell(before);
      AgreeingStates(before);
      RunBuiltExactly(before);
      PopTakesLast(Run(before).now.chain);
    }
  }

  lemma {:induction false} AgreeingIsSupported(steps: seq<Step>)
    requires AgreeingSteps(steps)
    ensures SupportedSteps(steps)
  {
    forall i | 0 <= i < |steps| && steps[i].Add? ensures SupportedEntry(steps[i].entry) {
      forall j | 0 <= j < |steps[i].entry.txs| ensures AllSupported(steps[i].entry.txs[j].vin) {
        assert Agreeing(steps[i].entry.txs[j]);
      }
    }
  }

  lemma {:induction false} RunIsReplay(steps: seq<Step>)
    requires AgreeingSteps(steps)
    ensures Built(Run(steps).now) && Built(Run(steps).saved)
  {
    AgreeingPopsWell(steps);
    RunBuiltExactly(steps);
  }

  /** After every such run the store files exactly the surviving transactions, and each image is
      spent once. */
  lemma {:induction false} RunHolds(steps: seq<Step>)
    requires AgreeingSteps(steps)
    ensures Holds(Run(steps).now.store.core, FiledChain(Run(steps).now.chain)) && SpendsOnce(Run(steps).now)
    ensures Holds(Run(steps).saved.store.core, FiledChain(Run(steps).saved.chain)) && SpendsOnce(Run(steps).saved)
  {
    RunIsReplay(steps);
    BuiltHolds(Run(steps).now);
    BuiltHolds(Run(steps).saved);
    AgreeingIsSupported(steps);
    RunSpendsOnce(steps);
  }

  /** Two outputs never resolve to the same row. */
  lemma RowsNotShared(c: Core, fs: seq<Filed>, t: nat, i: nat, u: nat, j: nat)
    requires Holds(c, fs) && t < |fs| && u < |fs|
    requires i < |fs[t].tx.vout| && j < |fs[u].tx.vout|
    requires FiledAmount(fs[t].tx, i) == FiledAmount(fs[u].tx, j)
    requires ListHolds(c, t, fs[t]) && ListHolds(c, u, fs[u])
    requires c.txOutputs[t].value[i] == c.txOutputs[u].value[j]
    ensures t == u && i == j
  {
    assert ResolvesAt(c.outs, fs[t], i, c.txOutputs[t].value[i]);
    assert ResolvesAt(c.outs, fs[u], j, c.txOutputs[u].value[j]);
    assert fs[t].hash == fs[u].hash;
    assert c.txIndices[fs[t].hash].txId == t && c.txIndices[fs[u].hash].txId == u;
  }
}
