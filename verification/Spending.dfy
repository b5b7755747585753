/** The spent images against the transaction table, over every run of any blocks. */
module Spending {
  import opened Tables
  import opened Ledger
  import opened Rounds
  import opened Store
  import opened BlockOps
  import opened Undo
  import opened UndoExact
  import opened Acceptance
  import opened Runs

  /** The images that all elements hold together, each as often as it occurs. */
  function Total<T>(s: seq<T>, of: T -> multiset<KeyImage>): multiset<KeyImage> {
    if s == [] then multiset{} else Total(s[..|s| - 1], of) + of(s[|s| - 1])
  }

  function RowImages(row: Row<Transaction>): multiset<KeyImage> { multiset(ImageList(row.value.vin)) }

  function AllImages(t: Table<Transaction>): multiset<KeyImage> { Total(t, RowImages) }

  /** Every image of a stored transaction is spent, and occurs once; nothing else is spent. */
  ghost predicate Paid(c: Core) { multiset(c.spent) == AllImages(c.txs) }

  /** Nothing else is spent. */
  ghost predicate Owed(c: Core) { multiset(c.spent) <= AllImages(c.txs) }

  lemma {:induction false} TotalAppend<T>(s: seq<T>, x: T, of: T -> multiset<KeyImage>)
    ensures Total(s + [x], of) == Total(s, of) + of(x)
  {
    assert (s + [x])[..|s|] == s;
  }

  lemma WithoutInit<T>(s: seq<T>, pos: nat)
    requires pos < |s| - 1
    ensures var init := s[..|s| - 1];
            s[..pos] + s[pos + 1..] == (init[..pos] + init[pos + 1..]) + [s[|s| - 1]]
  {
    var init := s[..|s| - 1];
    assert init[..pos] == s[..pos];
    assert init[pos + 1..] + [s[|s| - 1]] == s[pos + 1..];
  }

  lemma {:induction false} TotalWithout<T>(s: seq<T>, pos: nat, of: T -> multiset<KeyImage>)
    requires pos < |s|
    ensures Total(s, of) == Total(s[..pos] + s[pos + 1..], of) + of(s[pos])
  {
    var init, last := s[..|s| - 1], s[|s| - 1];
    if pos == |s| - 1 {
      assert s[..pos] + s[pos + 1..] == init;
    } else {
      var rest := init[..pos] + init[pos + 1..];
      WithoutInit(s, pos);
      TotalWithout(init, pos, of);
      TotalAppend(rest, last, of);
      assert Total(rest, of) + of(s[pos]) + of(last) == Total(rest, of) + of(last) + of(s[pos]);
    }
  }

  lemma {:induction false} DistinctOnce(images: seq<KeyImage>)
    ensures Distinct(images) <==> forall k :: multiset(images)[k] <= 1
  {
    if images != [] {
      var n := |images| - 1;
      var init := images[..n];
      DistinctOnce(init);
      assert images == init + [images[n]];
      if Distinct(images) {
        assert Distinct(init);
        assert images[n] !in init;
        forall k ensures multiset(images)[k] <= 1 {
          assert multiset(images)[k] == multiset(init)[k] + multiset([images[n]])[k];
        }
      }
      if forall k :: multiset(images)[k] <= 1 {
        forall k ensures multiset(init)[k] <= 1 { assert multiset(init)[k] <= multiset(images)[k]; }
        assert multiset(images)[images[n]] == multiset(init)[images[n]] + 1;
        assert images[n] !in init;
        DistinctConcat(init, [images[n]]);
      }
    }
  }

  // ----- one transaction

  /** An unsupported input makes the store forget an image that is spent. */
  predicate Forgets(spent: set<KeyImage>, tx: Transaction) {
    !AllSupported(tx.vin) && !(Images(tx.vin) !! spent)
  }

  lemma SpendsMore(spent: set<KeyImage>, images: seq<KeyImage>)
    requires Distinct(images) && (set k | k in images) !! spent
    ensures multiset(spent + set k | k in images) == multiset(spent) + multiset(images)
  {
    DistinctOnce(images);
    var both := spent + set k | k in images;
    forall k ensures multiset(both)[k] == multiset(spent)[k] + multiset(images)[k] {
      assert k in images <==> multiset(images)[k] == 1;
    }
  }

  lemma SpendsLess(spent: set<KeyImage>, images: seq<KeyImage>, a: multiset<KeyImage>)
    requires multiset(spent) <= a + multiset(images)
    ensures multiset(spent - set k | k in images) <= a
    ensures multiset(spent) == a + multiset(images) ==> multiset(spent - set k | k in images) == a
  {
    var less := spent - set k | k in images;
    forall k ensures multiset(less)[k] <= a[k] {
      assert multiset(spent)[k] <= a[k] + multiset(images)[k];
    }
    if multiset(spent) == a + multiset(images) {
      forall k ensures multiset(less)[k] == a[k] {
        assert multiset(spent)[k] == a[k] + multiset(images)[k];
        assert k in images <==> multiset(images)[k] > 0;
      }
    }
  }

  lemma ForgettingShows(spent: set<KeyImage>, images: set<KeyImage>, a: multiset<KeyImage>)
    requires multiset(spent) <= a
    ensures multiset(spent - images) <= a
    ensures multiset(spent - images) == a <==> multiset(spent) == a && images !! spent
  {
    assert multiset(spent - images) <= multiset(spent);
    if images !! spent {
      assert spent - images == spent;
    } else {
      var k :| k in images && k in spent;
      assert multiset(spent)[k] == 1 && multiset(spent - images)[k] == 0 && a[k] >= 1;
    }
    if multiset(spent - images) == a {
      assert multiset(spent) <= multiset(spent - images);
    }
  }

  /** The images after an addition that went through. */
  lemma SpentAfterAdd(c: Core, height: nat, hash: Hash, tx: Transaction)
    requires AddTransaction(c, height, hash, tx).Ok?
    ensures var t := AddTransaction(c, height, hash, tx).state;
            if AllSupported(tx.vin)
            then t.spent == c.spent + Images(tx.vin) && t.txs == c.txs + [Row(|c.txs|, tx)]
                 && Distinct(ImageList(tx.vin)) && Images(tx.vin) !! c.spent
            else t.spent == c.spent - Images(tx.vin) && t.txs == c.txs
  {
    if AllSupported(tx.vin) {
      AddedShape(c, height, hash, tx);
      AddTxBodyShape(c.(spent := c.spent + Images(tx.vin)), height, hash, tx);
    } else {
      AbortDropsImages(c, height, hash, tx);
    }
  }

  /** One more row, and its images with it. */
  lemma FilingPays(c: Core, t: Core, tx: Transaction)
    requires t.spent == c.spent + Images(tx.vin) && t.txs == c.txs + [Row(|c.txs|, tx)]
    requires Owed(c) && Distinct(ImageList(tx.vin)) && Images(tx.vin) !! c.spent
    ensures Owed(t) && (Paid(t) <==> Paid(c))
  {
    TotalAppend(c.txs, Row(|c.txs|, tx), RowImages);
    SpendsMore(c.spent, ImageList(tx.vin));
    CancelSame(multiset(c.spent), AllImages(c.txs), multiset(ImageList(tx.vin)));
  }

  /** Any addition that goes through: the account stays right if and only if nothing is forgotten,
      and once wrong it stays wrong. */
  lemma AddPaysExactly(c: Core, height: nat, hash: Hash, tx: Transaction)
    requires Owed(c) && AddTransaction(c, height, hash, tx).Ok?
    ensures var t := AddTransaction(c, height, hash, tx).state;
            Owed(t) && (Paid(t) <==> Paid(c) && !Forgets(c.spent, tx))
  {
    SpentAfterAdd(c, height, hash, tx);
    if AllSupported(tx.vin) {
      FilingPays(c, AddTransaction(c, height, hash, tx).state, tx);
    } else {
      ForgettingShows(c.spent, Images(tx.vin), AllImages(c.txs));
    }
  }

  lemma CancelSame(a: multiset<KeyImage>, b: multiset<KeyImage>, m: multiset<KeyImage>)
    ensures a + m == b + m <==> a == b
    ensures a <= b ==> a + m <= b + m
  {
    if a + m == b + m {
      forall k ensures a[k] == b[k] { assert (a + m)[k] == (b + m)[k]; }
    }
  }

  /** Any removal that goes through keeps the account right, whichever row it finds. */
  lemma PopPays(c: Core, hash: Hash)
    requires PopTx(c, hash).Ok?
    ensures Owed(c) ==> Owed(PopTx(c, hash).state)
    ensures Paid(c) ==> Paid(PopTx(c, hash).state)
  {
    PopTxTables(c, hash);
    var pos := Find(c.txs, c.txIndices[hash].txId).value;
    TotalWithout(c.txs, pos, RowImages);
    if Owed(c) { SpendsLess(c.spent, ImageList(c.txs[pos].value.vin), AllImages(DeleteAt(c.txs, pos))); }
  }

  // ----- one block

  function SpentAfter(spent: set<KeyImage>, tx: Transaction): set<KeyImage> {
    if AllSupported(tx.vin) then spent + Images(tx.vin) else spent
  }

  /** What is spent when the first n transactions went in and nothing was forgotten. */
  function SpentBy(spent: set<KeyImage>, txs: seq<Transaction>, n: nat): set<KeyImage>
    requires n <= |txs|
  {
    if n == 0 then spent else SpentAfter(SpentBy(spent, txs, n - 1), txs[n - 1])
  }

  /** One of the first n transactions makes the store forget. */
  predicate ForgetsBy(spent: set<KeyImage>, txs: seq<Transaction>, n: nat)
    requires n <= |txs|
  {
    n > 0 && (ForgetsBy(spent, txs, n - 1) || Forgets(SpentBy(spent, txs, n - 1), txs[n - 1]))
  }

  /** Read off the block and the spent set before the call. */
  predicate BlockForgets(spent: set<KeyImage>, e: Entry) {
    Forgets(spent, e.blk.minerTx) || ForgetsBy(SpentAfter(spent, e.blk.minerTx), e.txs, |e.txs|)
  }

  /** How the account stands after n transactions that were added to c. */
  ghost predicate Account(c: Core, txs: seq<Transaction>, d: Core, n: nat)
    requires n <= |txs|
  {
    && Owed(d) && (Paid(d) <==> Paid(c) && !ForgetsBy(c.spent, txs, n))
    && (!ForgetsBy(c.spent, txs, n) ==> d.spent == SpentBy(c.spent, txs, n))
  }

  lemma {:induction false} AccountNext(c: Core, height: nat, hashes: seq<Hash>, txs: seq<Transaction>, d: Core, k: nat)
    requires k < |txs| == |hashes| && Account(c, txs, d, k)
    requires AddTransaction(d, height, hashes[k], txs[k]).Ok?
    ensures Account(c, txs, AddTransaction(d, height, hashes[k], txs[k]).state, k + 1)
  {
    AddPaysExactly(d, height, hashes[k], txs[k]);
    SpentAfterAdd(d, height, hashes[k], txs[k]);
    assert ForgetsBy(c.spent, txs, k + 1) <==>
           ForgetsBy(c.spent, txs, k) || Forgets(SpentBy(c.spent, txs, k), txs[k]);
    if !ForgetsBy(c.spent, txs, k + 1) && !AllSupported(txs[k].vin) {
      assert d.spent - Images(txs[k].vin) == d.spent;
    }
  }

  lemma {:induction false} AddTxsPay(c: Core, height: nat, hashes: seq<Hash>, txs: seq<Transaction>)
    requires |txs| == |hashes| && Owed(c) && AddTxs(c, height, hashes, txs).Ok?
    ensures Account(c, txs, AddTxs(c, height, hashes, txs).state, |txs|)
  {
    var add := Adder(height, hashes, txs);
    var P := (d: Core, vs: seq<bool>, k: nat) => k <= |txs| && Account(c, txs, d, k);
    forall d, vs, k | 0 <= k < |txs| ensures KeptAt(add, P, d, vs, k) {
      if P(d, vs, k) && add(d, k).Ok? { AccountNext(c, height, hashes, txs, d, k); }
    }
    EachKeeps(add, P, c, |txs|);
  }

  /** Any block that the store accepts. */
  lemma {:induction false} BlockPaysExactly(s: Store, e: Entry)
    requires Paid(s.core) && AddBlock(s, e.blk, e.meta, e.txs).Ok?
    ensures Paid(AddBlock(s, e.blk, e.meta, e.txs).state.core) <==> !BlockForgets(s.core.spent, e)
  {
    AddBlockParts(s, e.blk, e.meta, e.txs);
    var m := AddTransaction(s.core, |s.blocks|, e.blk.minerTx.hash, e.blk.minerTx).state;
    AddPaysExactly(s.core, |s.blocks|, e.blk.minerTx.hash, e.blk.minerTx);
    SpentAfterAdd(s.core, |s.blocks|, e.blk.minerTx.hash, e.blk.minerTx);
    AddTxsPay(m, |s.blocks|, e.blk.txHashes, e.txs);
    if !Forgets(s.core.spent, e.blk.minerTx) && !AllSupported(e.blk.minerTx.vin) {
      assert s.core.spent - Images(e.blk.minerTx.vin) == s.core.spent;
    }
  }

  lemma PopBlockPays(s: Store)
    requires Paid(s.core) && PopBlock(s).Ok?
    ensures Paid(PopBlock(s).state.core)
  {
    PopParts(s);
    var hashes := s.blocks[|s.blocks| - 1].blk.txHashes;
    var P := (d: Core, k: nat) => Paid(d);
    forall d, k | 0 <= k < |hashes| ensures KeptBackAt(Popper(hashes), P, d, k) {
      if Paid(d) && Popper(hashes)(d, k).Ok? { PopPays(d, hashes[k]); }
    }
    BackKeeps(Popper(hashes), P, s.core, |hashes|, []);
    PopPays(PopTxs(s.core, hashes).state, s.blocks[|s.blocks| - 1].blk.minerTx.hash);
  }

  // ----- every run

  ghost predicate PaidState(s: State) { Paid(s.store.core) }

  predicate ForgettingStep(s: State, step: Step) {
    step.Add? && Try(s, step).Some? && BlockForgets(s.store.core.spent, step.entry)
  }

  /** Over every run of any blocks: no image is spent twice and the spent images are those of the
      stored transactions, all along the run, if and only if no block that goes in makes the store
      forget an image. */
  lemma {:induction false} RunPaysExactly(steps: seq<Step>)
    ensures Along(PaidState, steps) <==> Never(ForgettingStep, steps)
    ensures Never(ForgettingStep, steps) ==> PaidState(Run(steps).now) && PaidState(Run(steps).saved)
  {
    forall i, s | 0 <= i < |steps| ensures ExactAt(PaidState, ForgettingStep, s, steps[i]) {
      if PaidState(s) && Try(s, steps[i]).Some? {
        match steps[i]
        case Add(e) => BlockPaysExactly(s.store, e);
        case Pop => PopBlockPays(s.store);
        case _ =>
      }
    }
    RunExactly(PaidState, ForgettingStep, steps);
  }

  lemma {:induction false} SupportedNeverForgets(spent: set<KeyImage>, txs: seq<Transaction>, n: nat)
    requires n <= |txs| && forall i :: 0 <= i < n ==> AllSupported(txs[i].vin)
    ensures !ForgetsBy(spent, txs, n)
  {
    if n > 0 { SupportedNeverForgets(spent, txs, n - 1); }
  }
}
