/** Which inputs spend an image, which transactions are filed, and when the store takes one. */
module Inputs {
  import opened Tables
  import opened Ledger
  import opened Rounds
  import opened Store
  import opened BlockOps
  import opened Undo
  import opened UndoExact
  import opened OutputIndex
  import opened Acceptance

  // ----- images, input by input

  /** Ring inputs spend an image, of the native coin and of tokens alike. */
  predicate SpendsImage(input: TxIn, k: KeyImage) {
    match input
    case ToKey(_, _, image) => image == k
    case ZyInput(_, image) => image == k
    case _ => false
  }

  predicate SpentIn(vin: seq<TxIn>, k: KeyImage) {
    exists i :: 0 <= i < |vin| && SpendsImage(vin[i], k)
  }

  lemma {:induction false} ImagesAre(vin: seq<TxIn>, k: KeyImage)
    ensures k in Images(vin) <==> SpentIn(vin, k)
  {
    if vin != [] {
      var n := |vin| - 1;
      ImagesAre(vin[..n], k);
      assert vin == vin[..n] + [vin[n]];
    }
  }

  /** A transaction that does not throw is filed if and only if no input is a script input.  Filed, it
      spends the images of its ring inputs, which were unspent; otherwise those are unspent after it,
      whether they were before or not. */
  lemma FiledExactly(c: Core, height: nat, hash: Hash, tx: Transaction)
    requires AddTransaction(c, height, hash, tx).Ok?
    ensures var r := AddTransaction(c, height, hash, tx);
            && (r.value <==> forall i :: 0 <= i < |tx.vin| ==> !tx.vin[i].ToScript?)
            && (if r.value then hash !in c.txIndices && GetTx(r.state, hash) == Some(tx)
                else r.state == c.(spent := r.state.spent))
            && forall k :: k in r.state.spent <==>
                 if r.value then k in c.spent || SpentIn(tx.vin, k) else k in c.spent && !SpentIn(tx.vin, k)
    ensures AddTransaction(c, height, hash, tx).value ==> forall k :: SpentIn(tx.vin, k) ==> k !in c.spent
  {
    AddedIffSupported(c, height, hash, tx);
    assert forall i :: 0 <= i < |tx.vin| ==> (Supported(tx.vin[i]) <==> !tx.vin[i].ToScript?);
    forall k ensures k in Images(tx.vin) <==> SpentIn(tx.vin, k) { ImagesAre(tx.vin, k); }
    if AllSupported(tx.vin) {
      AddedShape(c, height, hash, tx);
      AddTxBodyShape(c.(spent := c.spent + Images(tx.vin)), height, hash, tx);
      AppendDelete(c.txs, Row(|c.txs|, tx));
    } else {
      AbortDropsImages(c, height, hash, tx);
    }
  }

  /** A removal unspends the images of the stored transaction, and no others. */
  lemma RemovedExactly(c: Core, hash: Hash)
    requires RemoveTransaction(c, hash).Ok?
    ensures GetTx(c, hash).Some?
    ensures forall k :: k in RemoveTransaction(c, hash).state.spent <==>
                        k in c.spent && !SpentIn(GetTx(c, hash).value.vin, k)
  {
    PopTxTables(c, hash);
    forall k ensures k in Images(GetTx(c, hash).value.vin) <==> SpentIn(GetTx(c, hash).value.vin, k) {
      ImagesAre(GetTx(c, hash).value.vin, k);
    }
  }

  // ----- when the inputs go through, of any kinds

  /** How many inputs come before the first script input. */
  function UntilScript(vin: seq<TxIn>): (n: nat)
    ensures n <= |vin| && (n < |vin| ==> vin[n].ToScript?)
    ensures forall i :: 0 <= i < n ==> !vin[i].ToScript?
  {
    if vin == [] || vin[0].ToScript? then 0 else 1 + UntilScript(vin[1..])
  }

  /** No two inputs spend the same image. */
  ghost predicate NoneTwice(vin: seq<TxIn>) {
    forall i, j, k :: 0 <= i < j < |vin| && SpendsImage(vin[i], k) ==> !SpendsImage(vin[j], k)
  }

  lemma NoneTwiceInBoth(a: seq<TxIn>, b: seq<TxIn>)
    ensures NoneTwice(a + b) <==> NoneTwice(a) && NoneTwice(b) && forall k :: SpentIn(a, k) ==> !SpentIn(b, k)
  {
    var c := a + b;
    assert forall i :: 0 <= i < |a| ==> c[i] == a[i];
    if NoneTwice(c) {
      forall i, j, k | 0 <= i < j < |b| && SpendsImage(b[i], k) ensures !SpendsImage(b[j], k) {
        assert c[|a| + i] == b[i] && c[|a| + j] == b[j];
      }
      forall i, j, k | 0 <= i < |a| && 0 <= j < |b| && SpendsImage(a[i], k) ensures !SpendsImage(b[j], k) {
        assert c[|a| + j] == b[j];
      }
    }
    if NoneTwice(a) && NoneTwice(b) && forall k :: SpentIn(a, k) ==> !SpentIn(b, k) {
      forall i, j, k | 0 <= i < j < |c| && SpendsImage(c[i], k) ensures !SpendsImage(c[j], k) {
        assert i < |a| ==> SpentIn(a, k);
      }
    }
  }

  lemma {:induction false} NoneTwiceExactly(vin: seq<TxIn>)
    ensures Distinct(ImageList(vin)) <==> NoneTwice(vin)
  {
    if vin != [] {
      var n := |vin| - 1;
      var u := vin[..n];
      NoneTwiceExactly(u);
      NoneTwiceInBoth(u, [vin[n]]);
      assert vin == u + [vin[n]];
      assert HasImage(vin[n]) ==> [vin[n]][0].image == vin[n].image;
      assert forall k :: SpentIn([vin[n]], k) <==> HasImage(vin[n]) && k == vin[n].image;
      if HasImage(vin[n]) {
        if Distinct(ImageList(u)) { OneMoreImage(ImageList(u), vin[n].image); }
        ImagesAre(u, vin[n].image);
        assert ImageList(vin) == ImageList(u) + [vin[n].image];
        if !Distinct(ImageList(u)) { PrefixFails(ImageList(u), ImageList(vin), {}); }
      } else {
        assert ImageList(vin) == ImageList(u);
      }
    }
  }

  /** No image up to the first script input is spent, and none occurs twice. */
  ghost predicate ImagesFit(spent: set<KeyImage>, vin: seq<TxIn>) {
    var p := vin[..UntilScript(vin)];
    NoneTwice(p) && forall k :: SpentIn(p, k) ==> k !in spent
  }

  lemma FreshExactly(vin: seq<TxIn>, spent: set<KeyImage>)
    ensures Images(vin) !! spent <==> forall k :: SpentIn(vin, k) ==> k !in spent
  {
    forall k ensures k in Images(vin) <==> SpentIn(vin, k) { ImagesAre(vin, k); }
    if !(Images(vin) !! spent) {
      var k :| k in Images(vin) && k in spent;
      assert SpentIn(vin, k);
    }
  }

  /** A script input stops the loop without a throw. */
  lemma {:induction false} ScriptStops(c: Core, vin: seq<TxIn>)
    ensures AddInputs(c, vin, |vin|).Ok? <==> AddInputs(c, vin, UntilScript(vin)).Ok?
  {
    var n := UntilScript(vin);
    if n < |vin| {
      var r := AddInputs(c, vin, n);
      if r.Ok? && r.value {
        assert AddInputs(c, vin, n + 1) == Ok(r.state, false);
        InputsStop(c, vin, n + 1, |vin|);
      } else {
        InputsStop(c, vin, n, |vin|);
      }
    }
  }

  lemma {:induction false} ImagesFitExactly(c: Core, vin: seq<TxIn>)
    ensures AddInputs(c, vin, |vin|).Ok? <==> ImagesFit(c.spent, vin)
  {
    var n := UntilScript(vin);
    ScriptStops(c, vin);
    InputsAccepted(c, vin, n);
    FreshExactly(vin[..n], c.spent);
    NoneTwiceExactly(vin[..n]);
  }

  lemma {:induction false} UnsupportedStops(c: Core, vin: seq<TxIn>)
    requires !AllSupported(vin) && AddInputs(c, vin, |vin|).Ok?
    ensures !AddInputs(c, vin, |vin|).value
  {
    assert vin[..|vin|] == vin;
    if AddInputs(c, vin, |vin|).value {
      InputsSpend(c, vin, |vin|);
      assert false;
    }
  }

  // ----- when the store takes a transaction

  /** No holes in any table. */
  ghost predicate Whole(c: Core) {
    NoHoles(c.outs) && Dense(c.txs) && Dense(c.txOutputs) && |c.txs| == |c.txOutputs|
  }

  /** What the store has seen: spent images and the hashes of filed transactions. */
  datatype Seen = Seen(spent: set<KeyImage>, hashes: set<Hash>)

  function SeenBy(c: Core): Seen { Seen(c.spent, c.txIndices.Keys) }

  function SeenAfter(b: Seen, hash: Hash, tx: Transaction): Seen {
    if AllSupported(tx.vin) then Seen(b.spent + Images(tx.vin), b.hashes + {hash})
    else Seen(b.spent - Images(tx.vin), b.hashes)
  }

  ghost predicate TxFits(b: Seen, hash: Hash, tx: Transaction) {
    && ImagesFit(b.spent, tx.vin)
    && (AllSupported(tx.vin) ==>
          hash !in b.hashes && forall i :: 0 <= i < |tx.vout| ==> OutputAccepted(tx, i))
  }

  /** Any transaction, of supported inputs or not: it goes in if and only if it fits. */
  lemma AnyAcceptedExactly(c: Core, f: Filed)
    requires Whole(c)
    ensures AddTransaction(c, f.height, f.hash, f.tx).Ok? <==> TxFits(SeenBy(c), f.hash, f.tx)
    ensures var r := AddTransaction(c, f.height, f.hash, f.tx);
            r.Ok? ==> Whole(r.state) && SeenBy(r.state) == SeenAfter(SeenBy(c), f.hash, f.tx)
  {
    var vin := f.tx.vin;
    ImagesFitExactly(c, vin);
    if AllSupported(vin) {
      AcceptedExactly(c, f);
      assert AddTransaction(c, f.height, f.hash, f.tx).Ok? ==> AddInputs(c, vin, |vin|).Ok?;
      assert vin[..|vin|] == vin;
      InputsAccepted(c, vin, |vin|);
      if AddTransaction(c, f.height, f.hash, f.tx).Ok? { WholeKept(c, f); }
    } else {
      if AddInputs(c, vin, |vin|).Ok? {
        UnsupportedStops(c, vin);
        AbortDropsImages(c, f.height, f.hash, f.tx);
      }
    }
  }

  lemma WholeKept(c: Core, f: Filed)
    requires Whole(c) && AllSupported(f.tx.vin) && AddTransaction(c, f.height, f.hash, f.tx).Ok?
    ensures var t := AddTransaction(c, f.height, f.hash, f.tx).state;
            Whole(t) && SeenBy(t) == SeenAfter(SeenBy(c), f.hash, f.tx)
  {
    AddedShape(c, f.height, f.hash, f.tx);
    AddTxBodyShape(c.(spent := c.spent + Images(f.tx.vin)), f.height, f.hash, f.tx);
    AddOutputsFiles(c.outs, f);
  }

  // ----- why a transaction is refused

  /** What an error says about an output. */
  predicate OutputFault(tx: Transaction, i: nat, error: Error)
    requires i < |tx.vout|
  {
    match error
    case UnlockTimesRange => tx.version >= 3 && i >= |tx.outputUnlockTimes|
    case WrongOutputType => tx.vout[i].target.ToScriptOut?
    case OutPkRange =>
      tx.version >= 2 && !HasGen(tx.vin) && !tx.vout[i].target.Zyphora? && NativeBefore(tx.vout, i) >= |tx.outPk|
    case RctWithoutCommitment => tx.version < 2 && tx.vout[i].target.ToKeyOut? && tx.vout[i].amount == 0
    case _ => false
  }

  /** An output is acceptable if and only if none of these faults is found. */
  lemma AcceptedIsFaultless(tx: Transaction, i: nat)
    requires i < |tx.vout|
    ensures OutputAccepted(tx, i) <==> forall e :: !OutputFault(tx, i, e)
  {
    RankIsCount(tx.vout, i);
    if !OutputAccepted(tx, i) {
      assert OutputFault(tx, i, UnlockTimesRange) || OutputFault(tx, i, WrongOutputType) ||
             OutputFault(tx, i, OutPkRange) || OutputFault(tx, i, RctWithoutCommitment);
    }
  }

  lemma {:induction false} InputsThrow(c: Core, vin: seq<TxIn>, n: nat)
    requires n <= |vin| && AddInputs(c, vin, n).Throw?
    ensures AddInputs(c, vin, n).error == KeyImageExists
  {
    if AddInputs(c, vin, n - 1).Throw? { InputsThrow(c, vin, n - 1); }
  }

  lemma OneOutputThrows(o: Outputs, height: nat, hash: Hash, tx: Transaction, i: nat)
    requires NoHoles(o) && i < |tx.vout| && Placer(height, hash, tx)(o, i).Throw?
    ensures OutputFault(tx, i, Placer(height, hash, tx)(o, i).error)
  {
    var b := Bucket(o, FiledAmount(tx, i));
    assert Dense(b);
    assert CanAppend(b, |b|);
    RankIsCount(tx.vout, i);
  }

  lemma OutputsThrow(o: Outputs, f: Filed)
    requires NoHoles(o) && AddOutputs(o, f.height, f.hash, f.tx).Throw?
    ensures exists i :: 0 <= i < |f.tx.vout| && OutputFault(f.tx, i, AddOutputs(o, f.height, f.hash, f.tx).error)
  {
    var place := Placer(f.height, f.hash, f.tx);
    var k := EachThrowsAt(place, o, |f.tx.vout|);
    var P := (p: Outputs, vs: seq<nat>, i: nat) => NoHoles(p);
    forall p, vs, i | 0 <= i < k ensures KeptAt(place, P, p, vs, i) {
      if NoHoles(p) && place(p, i).Ok? { AddOneFiles(p, f, i); }
    }
    EachKeeps(place, P, o, k);
    OneOutputThrows(Each(place, o, k).state, f.height, f.hash, f.tx, k);
  }

  /** Every refusal has the cause that the error names. */
  lemma RefusalJustified(c: Core, f: Filed)
    requires Whole(c) && AddTransaction(c, f.height, f.hash, f.tx).Throw?
    ensures match AddTransaction(c, f.height, f.hash, f.tx).error
            case KeyImageExists => !ImagesFit(c.spent, f.tx.vin)
            case TxExists => f.hash in c.txIndices
            case e => exists i :: 0 <= i < |f.tx.vout| && OutputFault(f.tx, i, e)
  {
    var n := |f.tx.vin|;
    ImagesFitExactly(c, f.tx.vin);
    if AddInputs(c, f.tx.vin, n).Throw? {
      InputsThrow(c, f.tx.vin, n);
    } else {
      InputsKeepRest(c, f.tx.vin, n);
      if f.hash !in c.txIndices {
        assert CanAppend(c.txs, |c.txs|) && CanAppend(c.txOutputs, |c.txs|);
        OutputsThrow(c.outs, f);
      }
    }
  }
}
