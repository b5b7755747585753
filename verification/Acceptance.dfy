/** When the store accepts a transaction, what it stores as commitments, and what an aborted
    transaction leaves behind. */
module Acceptance {
  import opened Tables
  import opened Ledger
  import opened Rounds
  import opened Store
  import opened BlockOps
  import opened Undo
  import opened OutputIndex

  // ----- inputs

  /** Supported inputs go through exactly when their images are fresh and pairwise different. */
  lemma {:induction false} InputsAccepted(c: Core, vin: seq<TxIn>, n: nat)
    requires n <= |vin| && AllSupported(vin[..n])
    ensures AddInputs(c, vin, n).Ok? <==> Distinct(ImageList(vin[..n])) && Images(vin[..n]) !! c.spent
    ensures AddInputs(c, vin, n).Ok? ==> AddInputs(c, vin, n).value
  {
    if n > 0 {
      var v := vin[..n];
      var u := vin[..n - 1];
      assert v[..n - 1] == u && v[n - 1] == vin[n - 1];
      assert forall i :: 0 <= i < |u| ==> u[i] == v[i];
      InputsAccepted(c, vin, n - 1);
      assert ImageList(v) == ImageList(u) + if HasImage(vin[n - 1]) then [vin[n - 1].image] else [];
      assert Supported(v[n - 1]);
      if AddInputs(c, vin, n - 1).Ok? {
        InputsSpend(c, vin, n - 1);
        if HasImage(vin[n - 1]) {
          OneMoreImage(ImageList(u), vin[n - 1].image);
          assert Images(v) == Images(u) + {vin[n - 1].image};
        }
      } else {
        PrefixFails(ImageList(u), ImageList(v), c.spent);
      }
    }
  }

  lemma OneMoreImage(images: seq<KeyImage>, k: KeyImage)
    requires Distinct(images)
    ensures Distinct(images + [k]) <==> k !in images
  {
    if k !in images {
      DistinctConcat(images, [k]);
    } else {
      var i :| 0 <= i < |images| && images[i] == k;
      assert (images + [k])[i] == (images + [k])[|images|];
    }
  }

  lemma PrefixFails(a: seq<KeyImage>, b: seq<KeyImage>, spent: set<KeyImage>)
    requires a <= b && !(Distinct(a) && (set k | k in a) !! spent)
    ensures !(Distinct(b) && (set k | k in b) !! spent)
  {
    if Distinct(a) {
      var k :| k in a && k in spent;
      assert k in b;
    } else {
      var i, j :| 0 <= i < j < |a| && a[i] == a[j];
      assert b[i] == b[j];
    }
  }

  /** Whatever the input loop did before it stopped, it only added images of these inputs. */
  lemma {:induction false} InputsOnlySpend(c: Core, vin: seq<TxIn>, n: nat)
    requires n <= |vin|
    ensures var t := AddInputs(c, vin, n).state;
            && t == c.(spent := t.spent) && c.spent <= t.spent
            && forall k :: k in t.spent ==> k in c.spent || k in ImageList(vin[..n])
  {
    if n > 0 {
      InputsOnlySpend(c, vin, n - 1);
      assert vin[..n][..n - 1] == vin[..n - 1] && vin[..n][n - 1] == vin[n - 1];
    }
  }

  /** An unsupported input at any position that aborts the addition: the images of all inputs
      of the transaction leave the spent set, nothing else changes, and so the tables are as
      before exactly when none of those images was spent. */
  lemma AbortDropsImages(c: Core, height: nat, hash: Hash, tx: Transaction)
    requires !AllSupported(tx.vin) && AddTransaction(c, height, hash, tx).Ok?
    ensures var r := AddTransaction(c, height, hash, tx);
            && !r.value && r.state == c.(spent := c.spent - Images(tx.vin))
            && (r.state == c <==> Images(tx.vin) !! c.spent)
  {
    var n := |tx.vin|;
    assert tx.vin[..n] == tx.vin;
    var r := AddInputs(c, tx.vin, n);
    if r.value {
      InputsSpend(c, tx.vin, n);
      assert false;
    }
    InputsOnlySpend(c, tx.vin, n);
    assert r.state.spent - Images(tx.vin) == c.spent - Images(tx.vin);
    if c.spent - Images(tx.vin) == c.spent {
      assert forall k :: k in Images(tx.vin) && k in c.spent ==> k in c.spent - Images(tx.vin);
    }
  }

  // ----- outputs

  /** What the store asks of output i before it files it. */
  predicate OutputAccepted(tx: Transaction, i: nat)
    requires i < |tx.vout|
  {
    var out := tx.vout[i];
    && !out.target.ToScriptOut? && UnlockTimeOf(tx, i).Some?
    && (FiledAsCoinbase(tx) || IsZyphora(out) ||
        if tx.version >= V2_RINGCT then NativeRank(tx.vout, i) < |tx.outPk| else out.amount != 0)
  }

  /** In tables without holes an output is refused for its own sake only, as far as the keys and
      entries of the tables go. */
  lemma OneOutputAccepted(o: Outputs, height: nat, hash: Hash, tx: Transaction, i: nat)
    requires NoHoles(o) && i < |tx.vout|
    ensures Placer(height, hash, tx)(o, i).Ok? <==> OutputAccepted(tx, i)
  {
    var b := Bucket(o, FiledAmount(tx, i));
    assert Dense(b);
    assert CanAppend(b, |b|);
  }

  /** The outputs of a transaction are filed if and only if each of them is acceptable. */
  lemma OutputsAcceptedExactly(o: Outputs, f: Filed)
    requires NoHoles(o)
    ensures AddOutputs(o, f.height, f.hash, f.tx).Ok? <==>
            forall i :: 0 <= i < |f.tx.vout| ==> OutputAccepted(f.tx, i)
  {
    var n := |f.tx.vout|;
    var place := Placer(f.height, f.hash, f.tx);
    var good := (k: nat) => k < n && OutputAccepted(f.tx, k);
    forall p, k | 0 <= k < n ensures GoesAt(place, NoHoles, good, p, k) {
      if NoHoles(p) {
        OneOutputAccepted(p, f.height, f.hash, f.tx, k);
        if place(p, k).Ok? { AddOneFiles(p, f, k); }
      }
    }
    EachGoesExactly(place, NoHoles, good, o, n);
    assert forall k :: 0 <= k < n ==> (good(k) <==> OutputAccepted(f.tx, k));
  }

  /** The store accepts a transaction of supported inputs if and only if its images are fresh and
      different, its hash is new, and its outputs are acceptable. */
  lemma AcceptedExactly(c: Core, f: Filed)
    requires AllSupported(f.tx.vin) && NoHoles(c.outs)
    requires Dense(c.txs) && Dense(c.txOutputs) && |c.txs| == |c.txOutputs|
    ensures AddTransaction(c, f.height, f.hash, f.tx).Ok? <==>
            && Distinct(ImageList(f.tx.vin)) && Images(f.tx.vin) !! c.spent
            && f.hash !in c.txIndices
            && forall i :: 0 <= i < |f.tx.vout| ==> OutputAccepted(f.tx, i)
  {
    assert f.tx.vin[..|f.tx.vin|] == f.tx.vin;
    InputsAccepted(c, f.tx.vin, |f.tx.vin|);
    if AddInputs(c, f.tx.vin, |f.tx.vin|).Ok? {
      InputsSpend(c, f.tx.vin, |f.tx.vin|);
      OutputsAcceptedExactly(c.outs, f);
    }
  }

  // ----- commitments

  lemma {:induction false} RankGrows(vout: seq<TxOut>, i: nat, n: nat)
    requires i < n <= |vout|
    ensures NativeRank(vout, i) + (if IsZyphora(vout[i]) then 0 else 1) <= NativeRank(vout, n)
  {
    if i < n - 1 { RankGrows(vout, i, n - 1); }
  }

  /** When the native outputs outnumber m, one of them has rank m. */
  lemma {:induction false} RankReached(vout: seq<TxOut>, n: nat, m: nat) returns (i: nat)
    requires n <= |vout| && m < NativeRank(vout, n)
    ensures i < n && !IsZyphora(vout[i]) && NativeRank(vout, i) == m
  {
    if m < NativeRank(vout, n - 1) { i := RankReached(vout, n - 1, m); } else { i := n - 1; }
  }

  /** The commitments that go with the native outputs among the first n, in output order. */
  function NativeCommitments(tx: Transaction, n: nat): seq<Option<Key>>
    requires n <= |tx.vout|
  {
    if n == 0 then []
    else NativeCommitments(tx, n - 1) +
         if IsZyphora(tx.vout[n - 1]) then [] else [CommitmentFor(tx, n - 1)]
  }

  predicate PlainRingCt(tx: Transaction) {
    tx.version >= V2_RINGCT && !HasGen(tx.vin)
  }

  /** The compaction: native outputs take the masks in order, whatever lies between them. */
  lemma {:induction false} CommitmentsAreMasks(tx: Transaction, n: nat)
    requires n <= |tx.vout| && PlainRingCt(tx) && NativeRank(tx.vout, n) <= |tx.outPk|
    ensures |NativeCommitments(tx, n)| == NativeRank(tx.vout, n)
    ensures forall j :: 0 <= j < NativeRank(tx.vout, n) ==> NativeCommitments(tx, n)[j] == Some(tx.outPk[j])
  {
    if n > 0 { CommitmentsAreMasks(tx, n - 1); }
  }

  lemma OnlyRangeFails(o: Outputs, f: Filed)
    requires NoHoles(o) && PlainRingCt(f.tx)
    requires forall i :: 0 <= i < |f.tx.vout| ==>
               !f.tx.vout[i].target.ToScriptOut? && UnlockTimeOf(f.tx, i).Some?
    ensures var r := AddOutputs(o, f.height, f.hash, f.tx); r.Throw? ==> r.error == OutPkRange
  {
    var place := Placer(f.height, f.hash, f.tx);
    if AddOutputs(o, f.height, f.hash, f.tx).Throw? {
      var k := EachThrowsAt(place, o, |f.tx.vout|);
      var P := (p: Outputs, vs: seq<nat>, i: nat) => NoHoles(p);
      forall p, vs, i | 0 <= i < k ensures KeptAt(place, P, p, vs, i) {
        if NoHoles(p) && place(p, i).Ok? { AddOneFiles(p, f, i); }
      }
      EachKeeps(place, P, o, k);
      OneOutputAccepted(Each(place, o, k).state, f.height, f.hash, f.tx, k);
    }
  }

  /** A RingCT transaction without generation input: the range check fails exactly when the
      native outputs outnumber the masks; otherwise every native output of amount 0 is stored
      with the mask of its rank among the native outputs. */
  lemma MasksByNativeRank(o: Outputs, f: Filed)
    requires NoHoles(o) && PlainRingCt(f.tx)
    requires forall i :: 0 <= i < |f.tx.vout| ==>
               !f.tx.vout[i].target.ToScriptOut? && UnlockTimeOf(f.tx, i).Some?
    ensures var r := AddOutputs(o, f.height, f.hash, f.tx);
            if NativeRank(f.tx.vout, |f.tx.vout|) > |f.tx.outPk| then r.Throw? && r.error == OutPkRange
            else
              && r.Ok? && |r.value| == |f.tx.vout|
              && forall i :: 0 <= i < |f.tx.vout| && !IsZyphora(f.tx.vout[i]) && f.tx.vout[i].amount == 0 ==>
                   && NativeRank(f.tx.vout, i) < |f.tx.outPk| && r.value[i] < |Bucket(r.state, 0)|
                   && Bucket(r.state, 0)[r.value[i]].value.commitment == Some(f.tx.outPk[NativeRank(f.tx.vout, i)])
  {
    var n := |f.tx.vout|;
    var r := AddOutputs(o, f.height, f.hash, f.tx);
    OutputsAcceptedExactly(o, f);
    OnlyRangeFails(o, f);
    if NativeRank(f.tx.vout, n) > |f.tx.outPk| {
      var i := RankReached(f.tx.vout, n, |f.tx.outPk|);
      assert !OutputAccepted(f.tx, i);
    } else {
      forall i | 0 <= i < n ensures OutputAccepted(f.tx, i) {
        RankGrows(f.tx.vout, i, n);
      }
      AddOutputsFiles(o, f);
      forall i | 0 <= i < n && !IsZyphora(f.tx.vout[i]) && f.tx.vout[i].amount == 0
        ensures NativeRank(f.tx.vout, i) < |f.tx.outPk| && r.value[i] < |Bucket(r.state, 0)|
        ensures Bucket(r.state, 0)[r.value[i]].value.commitment == Some(f.tx.outPk[NativeRank(f.tx.vout, i)])
      {
        assert OutputAccepted(f.tx, i);
        assert ResolvesAt(r.state, f, i, r.value[i]);
        RankIsCount(f.tx.vout, i);
      }
    }
  }
}
