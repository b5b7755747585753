/** When the store takes a block, and at which height. */
module BlockAcceptance {
  import opened Tables
  import opened Ledger
  import opened Rounds
  import opened Store
  import opened BlockOps
  import opened OutputIndex
  import opened Acceptance
  import opened Inputs
  import opened Runs
  import opened Filing
  import opened Resolution

  // ----- the transactions of a block, one after the other

  /** The rounds of the loop over the transactions, for what the store has seen. */
  function Next(hashes: seq<Hash>, txs: seq<Transaction>): (Seen, nat) -> Seen {
    (b: Seen, k: nat) => if k < |hashes| && k < |txs| then SeenAfter(b, hashes[k], txs[k]) else b
  }

  ghost function Fits(hashes: seq<Hash>, txs: seq<Transaction>): (Seen, nat) -> bool {
    (b: Seen, k: nat) => k < |hashes| && k < |txs| && TxFits(b, hashes[k], txs[k])
  }

  /** Each of the first n transactions fits what the store has seen before it. */
  ghost predicate TxsFit(b: Seen, hashes: seq<Hash>, txs: seq<Transaction>, n: nat) {
    AllFit(Fits(hashes, txs), Next(hashes, txs), b, n)
  }

  lemma {:induction false} TxsAcceptedExactly(c: Core, height: nat, hashes: seq<Hash>, txs: seq<Transaction>, n: nat)
    requires Whole(c) && n <= |txs| && n <= |hashes|
    ensures var r := Each(Adder(height, hashes, txs), c, n);
            && (r.Ok? <==> TxsFit(SeenBy(c), hashes, txs, n))
            && (r.Ok? ==> Whole(r.state) && SeenBy(r.state) == Folded(Next(hashes, txs), SeenBy(c), n))
  {
    var add, fits, next := Adder(height, hashes, txs), Fits(hashes, txs), Next(hashes, txs);
    forall d, k | 0 <= k < n ensures TracksAt(add, Whole, SeenBy, fits, next, d, k) {
      if Whole(d) { AnyAcceptedExactly(d, Filed(hashes[k], height, txs[k])); }
    }
    EachTracks(add, Whole, SeenBy, fits, next, c, n);
  }

  // ----- blocks

  /** The id is new, and the parent is the top block if there is one. */
  predicate RowFits(s: Store, blk: Block) {
    && blk.id !in s.blockHeights
    && (s.blocks != [] ==> blk.prevId in s.blockHeights && s.blockHeights[blk.prevId] == |s.blocks| - 1)
  }

  /** Each transaction of the block fits what the store has seen before it. */
  ghost predicate BlockTxsFit(b: Seen, e: Entry)
    requires |e.blk.txHashes| == |e.txs|
  {
    var m := e.blk.minerTx;
    TxFits(b, m.hash, m) && TxsFit(SeenAfter(b, m.hash, m), e.blk.txHashes, e.txs, |e.txs|)
  }

  /** Any block, of supported inputs or not: the store takes it if and only if the sizes agree, every
      transaction fits and the row does; it returns the height of the new row. */
  lemma BlockAcceptedExactly(s: Store, e: Entry)
    requires Whole(s.core)
    ensures AddBlock(s, e.blk, e.meta, e.txs).Ok? <==>
            |e.blk.txHashes| == |e.txs| && BlockTxsFit(SeenBy(s.core), e) && RowFits(s, e.blk)
    ensures var r := AddBlock(s, e.blk, e.meta, e.txs);
            r.Ok? ==> && r.value == |s.blocks| && |r.state.blocks| == r.value + 1
                      && r.state.blocks[r.value].blk == e.blk && r.state.blocks[..r.value] == s.blocks
                      && e.blk.id in r.state.blockHeights && r.state.blockHeights[e.blk.id] == r.value
                      && Whole(r.state.core)
  {
    var m, h := e.blk.minerTx, |s.blocks|;
    if |e.blk.txHashes| == |e.txs| {
      AnyAcceptedExactly(s.core, Filed(m.hash, h, m));
      var r := AddTransaction(s.core, h, m.hash, m);
      if r.Ok? { TxsAcceptedExactly(r.state, h, e.blk.txHashes, e.txs, |e.txs|); }
    }
  }

  /** Every refusal of a block has the cause that the error names. */
  lemma BlockRefusalJustified(s: Store, e: Entry)
    requires Whole(s.core) && AddBlock(s, e.blk, e.meta, e.txs).Throw?
    ensures match AddBlock(s, e.blk, e.meta, e.txs).error
            case InconsistentSizes => |e.blk.txHashes| != |e.txs|
            case BlockExists => e.blk.id in s.blockHeights
            case ParentMissing => s.blocks != [] && e.blk.prevId !in s.blockHeights
            case ParentNotTop =>
              s.blocks != [] && e.blk.prevId in s.blockHeights && s.blockHeights[e.blk.prevId] != |s.blocks| - 1
            case _ => |e.blk.txHashes| == |e.txs| && !BlockTxsFit(SeenBy(s.core), e)
  {
    var m, h := e.blk.minerTx, |s.blocks|;
    if |e.blk.txHashes| == |e.txs| {
      AnyAcceptedExactly(s.core, Filed(m.hash, h, m));
      var r := AddTransaction(s.core, h, m.hash, m);
      if r.Throw? {
        RefusalJustified(s.core, Filed(m.hash, h, m));
      } else {
        TxsAcceptedExactly(r.state, h, e.blk.txHashes, e.txs, |e.txs|);
        if AddTxs(r.state, h, e.blk.txHashes, e.txs).Throw? { TxsThrow(r.state, h, e.blk.txHashes, e.txs); }
      }
    }
  }

  /** The errors of the row are no errors of transactions. */
  predicate RowError(error: Error) {
    error.InconsistentSizes? || error.BlockExists? || error.ParentMissing? || error.ParentNotTop?
  }

  lemma {:induction false} TxsThrow(c: Core, height: nat, hashes: seq<Hash>, txs: seq<Transaction>)
    requires Whole(c) && |txs| == |hashes| && AddTxs(c, height, hashes, txs).Throw?
    ensures !RowError(AddTxs(c, height, hashes, txs).error)
  {
    var add := Adder(height, hashes, txs);
    var k := EachThrowsAt(add, c, |txs|);
    TxsAcceptedExactly(c, height, hashes, txs, k);
    RefusalJustified(Each(add, c, k).state, Filed(hashes[k], height, txs[k]));
  }

  // ----- supported inputs, all at once

  /** All inputs of the first n transactions, in order. */
  function InputsOf(txs: seq<Transaction>, n: nat): seq<TxIn>
    requires n <= |txs|
  {
    if n == 0 then [] else InputsOf(txs, n - 1) + txs[n - 1].vin
  }

  lemma SpentInBoth(a: seq<TxIn>, b: seq<TxIn>, k: KeyImage)
    ensures SpentIn(a + b, k) <==> SpentIn(a, k) || SpentIn(b, k)
  {
    if i :| 0 <= i < |a| && SpendsImage(a[i], k) { assert (a + b)[i] == a[i]; }
    if i :| 0 <= i < |b| && SpendsImage(b[i], k) { assert (a + b)[|a| + i] == b[i]; }
  }

  ghost predicate AllUnspent(vin: seq<TxIn>, spent: set<KeyImage>) {
    forall k :: SpentIn(vin, k) ==> k !in spent
  }

  ghost predicate OutputsFit(txs: seq<Transaction>, n: nat)
    requires n <= |txs|
  {
    forall t, i :: 0 <= t < n && 0 <= i < |txs[t].vout| ==> OutputAccepted(txs[t], i)
  }

  lemma {:induction false} NothingScripted(vin: seq<TxIn>)
    requires AllSupported(vin)
    ensures UntilScript(vin) == |vin| && vin[..|vin|] == vin
  {
    assert forall i :: 0 <= i < |vin| ==> Supported(vin[i]);
  }

  /** The hashes and the images that transactions of supported inputs add. */
  lemma {:induction false} SeenSupported(b: Seen, hashes: seq<Hash>, txs: seq<Transaction>, n: nat)
    requires n <= |txs| && n <= |hashes| && forall t :: 0 <= t < n ==> AllSupported(txs[t].vin)
    ensures var c := Folded(Next(hashes, txs), b, n);
            && c.hashes == b.hashes + (set h | h in hashes[..n])
            && forall k :: k in c.spent <==> k in b.spent || SpentIn(InputsOf(txs, n), k)
  {
    if n > 0 {
      SeenSupported(b, hashes, txs, n - 1);
      assert hashes[..n] == hashes[..n - 1] + [hashes[n - 1]];
      forall k
        ensures SpentIn(InputsOf(txs, n), k) <==> SpentIn(InputsOf(txs, n - 1), k) || k in Images(txs[n - 1].vin)
      {
        SpentInBoth(InputsOf(txs, n - 1), txs[n - 1].vin, k);
        ImagesAre(txs[n - 1].vin, k);
      }
    }
  }

  /** What transactions of supported inputs must be like together, given all their inputs and hashes. */
  ghost predicate FitTogether(b: Seen, vin: seq<TxIn>, hashes: seq<Hash>) {
    && NoneTwice(vin) && AllUnspent(vin, b.spent)
    && Distinct(hashes) && forall h :: h in hashes ==> h !in b.hashes
  }

  lemma FitTogetherParts(b: Seen, vin: seq<TxIn>, more: seq<TxIn>, hashes: seq<Hash>, hash: Hash)
    ensures FitTogether(b, vin + more, hashes + [hash]) <==>
            && FitTogether(b, vin, hashes) && NoneTwice(more) && AllUnspent(more, b.spent)
            && (forall k :: SpentIn(vin, k) ==> !SpentIn(more, k)) && hash !in hashes && hash !in b.hashes
  {
    NoneTwiceInBoth(vin, more);
    forall k ensures SpentIn(vin + more, k) <==> SpentIn(vin, k) || SpentIn(more, k) { SpentInBoth(vin, more, k); }
    DistinctOneMore(hashes, hash);
  }

  lemma DistinctOneMore<T>(s: seq<T>, x: T)
    ensures Distinct(s + [x]) <==> Distinct(s) && x !in s
  {
    var t := s + [x];
    assert forall i :: 0 <= i < |s| ==> t[i] == s[i];
    assert t[|s|] == x;
    if Distinct(t) { assert forall i :: 0 <= i < |s| ==> t[i] != t[|s|]; }
  }

  /** A transaction of supported inputs on top of others: it fits exactly if all of them fit together. */
  lemma FitsOnTop(b: Seen, c: Seen, vin: seq<TxIn>, hashes: seq<Hash>, hash: Hash, tx: Transaction)
    requires AllSupported(tx.vin)
    requires c.hashes == b.hashes + (set h | h in hashes)
    requires forall k :: k in c.spent <==> k in b.spent || SpentIn(vin, k)
    ensures FitTogether(b, vin, hashes) && TxFits(c, hash, tx) <==>
            FitTogether(b, vin + tx.vin, hashes + [hash]) && OutputsFit([tx], 1)
  {
    NothingScripted(tx.vin);
    FitTogetherParts(b, vin, tx.vin, hashes, hash);
    assert AllUnspent(tx.vin, c.spent) <==>
           AllUnspent(tx.vin, b.spent) && forall k :: SpentIn(vin, k) ==> !SpentIn(tx.vin, k);
    assert [tx][0] == tx;
  }

  lemma OutputsFitNext(txs: seq<Transaction>, n: nat)
    requires 0 < n <= |txs|
    ensures OutputsFit(txs, n) <==> OutputsFit(txs, n - 1) && OutputsFit([txs[n - 1]], 1)
  {
    assert [txs[n - 1]][0] == txs[n - 1];
  }

  lemma {:induction false} TxsFitExactly(b: Seen, hashes: seq<Hash>, txs: seq<Transaction>, n: nat)
    requires n <= |txs| && n <= |hashes| && forall t :: 0 <= t < n ==> AllSupported(txs[t].vin)
    ensures TxsFit(b, hashes, txs, n) <==> FitTogether(b, InputsOf(txs, n), hashes[..n]) && OutputsFit(txs, n)
  {
    if n > 0 {
      TxsFitExactly(b, hashes, txs, n - 1);
      SeenSupported(b, hashes, txs, n - 1);
      var c := Folded(Next(hashes, txs), b, n - 1);
      FitsOnTop(b, c, InputsOf(txs, n - 1), hashes[..n - 1], hashes[n - 1], txs[n - 1]);
      OutputsFitNext(txs, n);
      assert hashes[..n] == hashes[..n - 1] + [hashes[n - 1]];
    }
  }

  lemma DistinctInBoth<T>(s: seq<T>, t: seq<T>)
    ensures Distinct(s + t) <==> Distinct(s) && Distinct(t) && forall x :: x in s ==> x !in t
  {
    var u := s + t;
    assert forall i :: 0 <= i < |s| ==> u[i] == s[i];
    assert forall i :: 0 <= i < |t| ==> u[|s| + i] == t[i];
    if Distinct(u) {
      forall i, j | 0 <= i < j < |t| ensures t[i] != t[j] { assert u[|s| + i] != u[|s| + j]; }
      forall i, j | 0 <= i < |s| && 0 <= j < |t| ensures s[i] != t[j] { assert u[i] != u[|s| + j]; }
    } else if Distinct(s) && Distinct(t) && forall x :: x in s ==> x !in t {
      DistinctConcat(s, t);
    }
  }

  /** More transactions on top of others. */
  lemma FitTogetherOnTop(b: Seen, c: Seen, u: seq<TxIn>, v: seq<TxIn>, gs: seq<Hash>, hs: seq<Hash>)
    requires c.hashes == b.hashes + (set h | h in gs)
    requires forall k :: k in c.spent <==> k in b.spent || SpentIn(u, k)
    ensures FitTogether(b, u, gs) && FitTogether(c, v, hs) <==> FitTogether(b, u + v, gs + hs)
  {
    NoneTwiceInBoth(u, v);
    forall k ensures SpentIn(u + v, k) <==> SpentIn(u, k) || SpentIn(v, k) { SpentInBoth(u, v, k); }
    DistinctInBoth(gs, hs);
  }

  function BlockInputs(e: Entry): seq<TxIn> { e.blk.minerTx.vin + InputsOf(e.txs, |e.txs|) }

  function BlockHashes(e: Entry): seq<Hash> { [e.blk.minerTx.hash] + e.blk.txHashes }

  ghost predicate BlockOutputsFit(e: Entry) {
    OutputsFit([e.blk.minerTx], 1) && OutputsFit(e.txs, |e.txs|)
  }

  lemma BlockTxsFitExactly(b: Seen, e: Entry)
    requires |e.blk.txHashes| == |e.txs| && SupportedEntry(e)
    ensures BlockTxsFit(b, e) <==> FitTogether(b, BlockInputs(e), BlockHashes(e)) && BlockOutputsFit(e)
  {
    var m, n, hs := e.blk.minerTx, |e.txs|, e.blk.txHashes;
    var c := SeenAfter(b, m.hash, m);
    FitsOnTop(b, b, [], [], m.hash, m);
    assert [] + m.vin == m.vin && [] + [m.hash] == [m.hash];
    TxsFitExactly(c, hs, e.txs, n);
    assert hs[..n] == hs;
    forall k ensures k in Images(m.vin) <==> SpentIn(m.vin, k) { ImagesAre(m.vin, k); }
    FitTogetherOnTop(b, c, m.vin, InputsOf(e.txs, n), [m.hash], hs);
  }

  // ----- on the store of a chain

  lemma BuiltNext(s: State, e: Entry, t: State)
    requires Blocks(s) && Try(s, Add(e)) == Some(t)
    ensures Blocks(t)
  {
    BlockAdded(s, e);
  }

  lemma {:induction false} ReplayNext(chain: seq<Entry>)
    requires Accepted(chain) && chain != []
    ensures var n := |chain| - 1;
            && Accepted(chain[..n])
            && Try(State(Replay(chain[..n]), chain[..n]), Add(chain[n])) == Some(State(Replay(chain), chain))
  {
    assert chain[..|chain| - 1] + [chain[|chain| - 1]] == chain;
  }

  lemma {:induction false} ReplayBlocks(chain: seq<Entry>)
    requires Accepted(chain)
    ensures Blocks(State(Replay(chain), chain))
  {
    if chain != [] {
      var n := |chain| - 1;
      ReplayNext(chain);
      ReplayBlocks(chain[..n]);
      BuiltNext(State(Replay(chain[..n]), chain[..n]), chain[n], State(Replay(chain), chain));
    }
  }

  /** The id is not that of a block below, and the parent is the top block. */
  predicate OnTop(chain: seq<Entry>, blk: Block) {
    && (forall i :: 0 <= i < |chain| ==> chain[i].blk.id != blk.id)
    && (chain != [] ==> blk.prevId == chain[|chain| - 1].blk.id)
  }

  lemma RowFitsExactly(s: State, blk: Block)
    requires Blocks(s)
    ensures RowFits(s.store, blk) <==> OnTop(s.chain, blk)
  {
  }

  lemma HoldsWhole(c: Core, fs: seq<Filed>)
    requires Holds(c, fs)
    ensures Whole(c)
    ensures forall h :: h in c.txIndices <==> exists t :: 0 <= t < |fs| && fs[t].hash == h
  {
    forall t | 0 <= t < |c.txOutputs| ensures c.txOutputs[t].key == t { assert ListHolds(c, t, fs[t]); }
  }

  ghost predicate NewHashes(fs: seq<Filed>, hashes: seq<Hash>) {
    forall t :: 0 <= t < |fs| ==> fs[t].hash !in hashes
  }

  lemma NewHashesExactly(c: Core, fs: seq<Filed>, hashes: seq<Hash>)
    requires Holds(c, fs)
    ensures NewHashes(fs, hashes) <==> forall h :: h in hashes ==> h !in c.txIndices
  {
    HoldsWhole(c, fs);
  }

  /** Any store whose tables hold these transactions. */
  lemma SupportedAccepted(s: Store, fs: seq<Filed>, e: Entry)
    requires Holds(s.core, fs) && SupportedEntry(e)
    ensures AddBlock(s, e.blk, e.meta, e.txs).Ok? <==>
            && |e.blk.txHashes| == |e.txs|
            && NoneTwice(BlockInputs(e)) && AllUnspent(BlockInputs(e), s.core.spent)
            && Distinct(BlockHashes(e)) && NewHashes(fs, BlockHashes(e))
            && BlockOutputsFit(e) && RowFits(s, e.blk)
  {
    HoldsWhole(s.core, fs);
    NewHashesExactly(s.core, fs, BlockHashes(e));
    BlockAcceptedExactly(s, e);
    if |e.blk.txHashes| == |e.txs| { BlockTxsFitExactly(SeenBy(s.core), e); }
  }

  /** On the store of any accepted chain, a block of supported inputs goes in if and only if it has a
      hash for each transaction, no two inputs of its transactions spend the same image and none a
      spent one, no two transactions have the same hash and none that of a filed one, each output is
      acceptable, its id is new and its parent the top block; it goes in at the height of the chain. */
  lemma SupportedBlockAccepted(s: State, e: Entry)
    requires Built(s) && SupportedEntry(e)
    ensures AddBlock(s.store, e.blk, e.meta, e.txs).Ok? <==>
            && |e.blk.txHashes| == |e.txs|
            && NoneTwice(BlockInputs(e)) && AllUnspent(BlockInputs(e), s.store.core.spent)
            && Distinct(BlockHashes(e)) && NewHashes(FiledChain(s.chain), BlockHashes(e))
            && BlockOutputsFit(e) && OnTop(s.chain, e.blk)
    ensures var r := AddBlock(s.store, e.blk, e.meta, e.txs); r.Ok? ==> r.value == |s.chain|
  {
    BuiltHolds(s);
    ReplayBlocks(s.chain);
    RowFitsExactly(s, e.blk);
    SupportedAccepted(s.store, FiledChain(s.chain), e);
    HoldsWhole(s.store.core, FiledChain(s.chain));
    BlockAcceptedExactly(s.store, e);
  }
}
