/** How outputs are found again: index lists, per-amount rows, global rows, height indexes. */
module OutputIndex {
  import opened Tables
  import opened Ledger
  import opened Rounds
  import opened Store
  import opened BlockOps
  import opened Undo

  /** A transaction as filed: under which hash and at which height. */
  datatype Filed = Filed(hash: Hash, height: nat, tx: Transaction)

  // ----- what a row holds

  /** How many native outputs come before output i. */
  function NativeBefore(vout: seq<TxOut>, i: nat): nat
    requires i <= |vout|
  {
    |Natives(vout, i)|
  }

  function Natives(vout: seq<TxOut>, i: nat): set<nat>
    requires i <= |vout|
  {
    set j: nat | j < i && !vout[j].target.Zyphora?
  }

  lemma {:induction false} RankIsCount(vout: seq<TxOut>, i: nat)
    requires i <= |vout|
    ensures NativeRank(vout, i) == NativeBefore(vout, i)
  {
    if i > 0 {
      RankIsCount(vout, i - 1);
      assert Natives(vout, i) == Natives(vout, i - 1) + if vout[i - 1].target.Zyphora? then {} else {i - 1};
    }
  }

  /** A RingCT transaction with a generation input: its outputs go under amount 0. */
  predicate Mined(tx: Transaction) {
    tx.version >= 2 && exists j :: 0 <= j < |tx.vin| && tx.vin[j].Gen?
  }

  function AmountOf(tx: Transaction, i: nat): Amount
    requires i < |tx.vout|
  {
    if Mined(tx) then 0 else tx.vout[i].amount
  }

  /** The row holds output i of the transaction, which was added at the height: its own unlock time
      from version 3 on and that of the transaction before; the key, or the stealth address with the
      output's own commitment and token; a native output has the null token and, exactly under
      amount 0, a commitment, to the mined amount or the mask of its place among the native ones. */
  predicate Holding(row: OutKey, tx: Transaction, i: nat, height: nat)
    requires i < |tx.vout|
  {
    && row.height == height
    && (if tx.version >= 3 then i < |tx.outputUnlockTimes| && row.unlockTime == tx.outputUnlockTimes[i]
        else row.unlockTime == tx.unlockTime)
    && match tx.vout[i].target
       case Zyphora(stealth, commitment, token) =>
         row.pubkey == stealth && row.commitment == Some(commitment) && row.token == token
       case ToKeyOut(key) =>
         && row.pubkey == key && row.token == 0
         && if Mined(tx) then row.commitment == Some(ZeroCommit(tx.vout[i].amount))
            else if tx.vout[i].amount != 0 then row.commitment == None
            else
              && tx.version >= 2 && NativeBefore(tx.vout, i) < |tx.outPk|
              && row.commitment == Some(tx.outPk[NativeBefore(tx.vout, i)])
       case ToScriptOut => false
  }

  /** Entry k of the bucket of output i's amount holds output i of f, and the global table
      points back to it. */
  ghost predicate ResolvesAt(o: Outputs, f: Filed, i: nat, k: nat)
    requires i < |f.tx.vout|
  {
    var b := Bucket(o, FiledAmount(f.tx, i));
    && k < |b| && Holding(b[k].value, f.tx, i, f.height)
    && b[k].value.outputId < |o.outputTxs|
    && o.outputTxs[b[k].value.outputId].value == OutTx(f.hash, i)
  }

  /** Row k of amount a is one of f's outputs, and f's index list says so. */
  ghost predicate OwnedBy(o: Outputs, a: Amount, k: nat, f: Filed, indices: seq<nat>)
    requires k < |Bucket(o, a)|
  {
    var id := Bucket(o, a)[k].value.outputId;
    && id < |o.outputTxs|
    && o.outputTxs[id].value.txHash == f.hash
    && var i := o.outputTxs[id].value.localIndex;
       i < |indices| && i < |f.tx.vout| && indices[i] == k && FiledAmount(f.tx, i) == a
  }

  function TokenEntries(b: Table<OutKey>): set<(nat, nat)> {
    set k | 0 <= k < |b| && b[k].value.token != NULL_TOKEN :: (b[k].value.height, k)
  }

  function PlainEntries(b: Table<OutKey>): set<(nat, nat)> {
    set k | 0 <= k < |b| && b[k].value.token == NULL_TOKEN :: (b[k].value.height, k)
  }

  /** No holes in any table, and no height entry beyond the rows of amount 0. */
  ghost predicate NoHoles(o: Outputs) {
    && Canonical(o)
    && Dense(o.outputTxs)
    && (forall a :: Dense(Bucket(o, a)))
    && (forall p :: p in o.zyHeights ==> p.1 < |Bucket(o, 0)|)
    && (forall p :: p in o.nativeHeights ==> p.1 < |Bucket(o, 0)|)
  }

  /** The height indexes list exactly the rows of amount 0, told apart by token. */
  ghost predicate Indexed(o: Outputs) {
    && o.zyHeights == TokenEntries(Bucket(o, 0))
    && o.nativeHeights == PlainEntries(Bucket(o, 0))
  }

  /** Later tables only append to earlier ones. */
  ghost predicate Extends(o: Outputs, p: Outputs) {
    && o.outputTxs <= p.outputTxs
    && forall a :: Bucket(o, a) <= Bucket(p, a)
  }

  lemma ExtendsKeepsResolves(o: Outputs, p: Outputs, f: Filed, i: nat, k: nat)
    requires Extends(o, p) && i < |f.tx.vout| && ResolvesAt(o, f, i, k)
    ensures ResolvesAt(p, f, i, k)
  {
    var a := FiledAmount(f.tx, i);
    assert Bucket(o, a) <= Bucket(p, a);
    assert Bucket(o, a)[k] == Bucket(p, a)[k];
  }

  lemma ExtendsKeepsOwned(o: Outputs, p: Outputs, a: Amount, k: nat, f: Filed, indices: seq<nat>,
                          more: seq<nat>)
    requires Extends(o, p) && k < |Bucket(o, a)| && OwnedBy(o, a, k, f, indices) && indices <= more
    ensures k < |Bucket(p, a)| && OwnedBy(p, a, k, f, more)
  {
    assert Bucket(o, a) <= Bucket(p, a);
    assert Bucket(o, a)[k] == Bucket(p, a)[k];
  }

  lemma EntriesAppend(b: Table<OutKey>, row: Row<OutKey>)
    ensures TokenEntries(b + [row]) ==
            TokenEntries(b) + if row.value.token != NULL_TOKEN then {(row.value.height, |b|)} else {}
    ensures PlainEntries(b + [row]) ==
            PlainEntries(b) + if row.value.token == NULL_TOKEN then {(row.value.height, |b|)} else {}
  {
    var c := b + [row];
    assert forall k :: 0 <= k < |b| ==> c[k] == b[k];
    assert c[|b|] == row;
    forall p | p in TokenEntries(b) ensures p in TokenEntries(c) {
      var k :| 0 <= k < |b| && b[k].value.token != NULL_TOKEN && p == (b[k].value.height, k);
      assert c[k] == b[k];
    }
    forall p | p in PlainEntries(b) ensures p in PlainEntries(c) {
      var k :| 0 <= k < |b| && b[k].value.token == NULL_TOKEN && p == (b[k].value.height, k);
      assert c[k] == b[k];
    }
  }

  /** One stored output: one row at the end of its bucket, one at the end of the global table. */
  lemma AddOutputShape(o: Outputs, height: nat, hash: Hash, out: TxOut, i: nat, unlock: nat,
                       commitment: Option<Key>)
    requires NoHoles(o) && AddOutput(o, height, hash, out, i, unlock, commitment).Ok?
    ensures var r := AddOutput(o, height, hash, out, i, unlock, commitment);
            && !out.target.ToScriptOut?
            && r.value == |Bucket(o, out.amount)|
            && r.state.outputTxs == o.outputTxs + [Row(|o.outputTxs|, OutTx(hash, i))]
            && Bucket(r.state, out.amount) == Bucket(o, out.amount) +
                 [Row(r.value, OutKeyFor(out, |o.outputTxs|, unlock, height, commitment))]
            && (forall a :: a != out.amount ==> Bucket(r.state, a) == Bucket(o, a))
            && Extends(o, r.state) && NoHoles(r.state)
  {
    var r := AddOutput(o, height, hash, out, i, unlock, commitment);
    assert NextKey(o.outputTxs) == |o.outputTxs|;
    assert Dense(Bucket(o, out.amount));
    forall a ensures Dense(Bucket(r.state, a)) {
      assert Dense(Bucket(o, a));
    }
  }

  /** The height indexes stay right as long as a Zyphora output at amount 0 carries a token. */
  lemma AddOutputIndexed(o: Outputs, height: nat, hash: Hash, out: TxOut, i: nat, unlock: nat,
                         commitment: Option<Key>)
    requires Indexed(o) && AddOutput(o, height, hash, out, i, unlock, commitment).Ok?
    requires IsZyphora(out) && out.amount == 0 ==> out.target.token != NULL_TOKEN
    ensures Indexed(AddOutput(o, height, hash, out, i, unlock, commitment).state)
  {
    EntriesAppend(Bucket(o, 0), Row(|Bucket(o, 0)|,
                  OutKeyFor(out, NextKey(o.outputTxs), unlock, height, commitment)));
  }

  lemma AddOutputsIndexed(o: Outputs, height: nat, hash: Hash, tx: Transaction)
    requires Indexed(o) && AddOutputs(o, height, hash, tx).Ok?
    requires HasTokens(tx)
    ensures Indexed(AddOutputs(o, height, hash, tx).state)
  {
    var place := Placer(height, hash, tx);
    var P := (p: Outputs, vs: seq<nat>, k: nat) => Indexed(p);
    forall p, vs, k | 0 <= k < |tx.vout| ensures KeptAt(place, P, p, vs, k) {
      if Indexed(p) && place(p, k).Ok? {
        assert HasToken(tx, k);
        PlacerStores(p, height, hash, tx, k);
        AddOutputIndexed(p, height, hash, FiledOut(tx, k), k, UnlockTimeOf(tx, k).value, CommitmentFor(tx, k));
      }
    }
    EachKeeps(place, P, o, |tx.vout|);
  }

  /** The height entries of the first n outputs of f that are filed under amount 0 and are of the
      given kind, when their indices are these. */
  function HeightEntries(f: Filed, indices: seq<nat>, n: nat, zyphora: bool): set<(nat, nat)>
    requires n <= |f.tx.vout|
  {
    if n == 0 then {}
    else
      var entries := HeightEntries(f, indices, n - 1, zyphora);
      if n <= |indices| && FiledAmount(f.tx, n - 1) == 0 && IsZyphora(f.tx.vout[n - 1]) == zyphora
      then entries + {(f.height, indices[n - 1])} else entries
  }

  lemma {:induction false} HeightEntriesPrefix(f: Filed, indices: seq<nat>, k: nat, n: nat, zyphora: bool)
    requires n <= |f.tx.vout| && n <= |indices|
    ensures HeightEntries(f, indices + [k], n, zyphora) == HeightEntries(f, indices, n, zyphora)
  {
    if n > 0 { HeightEntriesPrefix(f, indices, k, n - 1, zyphora); }
  }

  /** One round of the output loop adds the entry of output k, if there is one. */
  lemma AddOneHeights(p: Outputs, f: Filed, vs: seq<nat>, k: nat)
    requires k < |f.tx.vout| && |vs| == k && Placer(f.height, f.hash, f.tx)(p, k).Ok?
    ensures var r := Placer(f.height, f.hash, f.tx)(p, k);
            var zeroes := FiledAmount(f.tx, k) == 0;
            && r.state.zyHeights == p.zyHeights +
                 (if zeroes && IsZyphora(f.tx.vout[k]) then {(f.height, r.value)} else {})
            && r.state.nativeHeights == p.nativeHeights +
                 (if zeroes && !IsZyphora(f.tx.vout[k]) then {(f.height, r.value)} else {})
  {
    PlacerStores(p, f.height, f.hash, f.tx, k);
  }

  ghost predicate HeightsFiled(o: Outputs, p: Outputs, f: Filed, indices: seq<nat>, n: nat)
    requires n <= |f.tx.vout|
  {
    && p.zyHeights == o.zyHeights + HeightEntries(f, indices, n, true)
    && p.nativeHeights == o.nativeHeights + HeightEntries(f, indices, n, false)
  }

  lemma OneMoreHeight(o: Outputs, p: Outputs, f: Filed, vs: seq<nat>, k: nat)
    requires k < |f.tx.vout| && |vs| == k && HeightsFiled(o, p, f, vs, k)
    requires Placer(f.height, f.hash, f.tx)(p, k).Ok?
    ensures var r := Placer(f.height, f.hash, f.tx)(p, k); HeightsFiled(o, r.state, f, vs + [r.value], k + 1)
  {
    var v := Placer(f.height, f.hash, f.tx)(p, k).value;
    AddOneHeights(p, f, vs, k);
    HeightEntriesPrefix(f, vs, v, k, true);
    HeightEntriesPrefix(f, vs, v, k, false);
    assert (vs + [v])[k] == v;
  }

  /** Addition tells the height indexes apart by the kind of the output. */
  lemma AddOutputsHeights(o: Outputs, f: Filed)
    requires AddOutputs(o, f.height, f.hash, f.tx).Ok?
    ensures var r := AddOutputs(o, f.height, f.hash, f.tx);
            HeightsFiled(o, r.state, f, r.value, |f.tx.vout|)
  {
    var n := |f.tx.vout|;
    var place := Placer(f.height, f.hash, f.tx);
    var P := (p: Outputs, vs: seq<nat>, k: nat) => k <= n && HeightsFiled(o, p, f, vs, k);
    forall p, vs, k | 0 <= k < n ensures KeptAt(place, P, p, vs, k) {
      if P(p, vs, k) && |vs| == k && place(p, k).Ok? { OneMoreHeight(o, p, f, vs, k); }
    }
    EachKeeps(place, P, o, n);
  }

  /** All outputs of one transaction. */
  ghost predicate OutputsFiled(o: Outputs, p: Outputs, f: Filed, indices: seq<nat>, n: nat)
    requires n <= |f.tx.vout|
  {
    && NoHoles(p) && Extends(o, p) && |indices| == n
    && (forall i :: 0 <= i < n ==> ResolvesAt(p, f, i, indices[i]))
    && (forall a, k :: |Bucket(o, a)| <= k < |Bucket(p, a)| ==> OwnedBy(p, a, k, f, indices))
  }

  /** One round of the output loop files output i where its index says. */
  lemma AddOneFiles(q: Outputs, f: Filed, i: nat)
    requires NoHoles(q) && i < |f.tx.vout| && Placer(f.height, f.hash, f.tx)(q, i).Ok?
    ensures var r := Placer(f.height, f.hash, f.tx)(q, i);
            var a := FiledAmount(f.tx, i);
            && NoHoles(r.state) && Extends(q, r.state) && r.value == |Bucket(q, a)|
            && |Bucket(r.state, a)| == r.value + 1 && ResolvesAt(r.state, f, i, r.value)
            && forall b :: b != a ==> Bucket(r.state, b) == Bucket(q, b)
  {
    PlacerStores(q, f.height, f.hash, f.tx, i);
    AddOutputShape(q, f.height, f.hash, FiledOut(f.tx, i), i, UnlockTimeOf(f.tx, i).value,
                   CommitmentFor(f.tx, i));
    RankIsCount(f.tx.vout, i);
  }

  lemma AddOutputsFiles(o: Outputs, f: Filed)
    requires NoHoles(o) && AddOutputs(o, f.height, f.hash, f.tx).Ok?
    ensures var r := AddOutputs(o, f.height, f.hash, f.tx);
            OutputsFiled(o, r.state, f, r.value, |f.tx.vout|)
  {
    var n := |f.tx.vout|;
    var place := Placer(f.height, f.hash, f.tx);
    var P := (p: Outputs, vs: seq<nat>, k: nat) => k <= n && OutputsFiled(o, p, f, vs, k);
    assert Extends(o, o);
    forall p, vs, k | 0 <= k < n ensures KeptAt(place, P, p, vs, k) {
      if P(p, vs, k) && place(p, k).Ok? {
        AddOneFiles(p, f, k);
        OneMoreFiled(o, p, place(p, k).state, f, vs, k, place(p, k).value);
      }
    }
    EachKeeps(place, P, o, n);
  }

  lemma OneMoreFiled(o: Outputs, q: Outputs, p: Outputs, f: Filed, indices: seq<nat>, n: nat, k: nat)
    requires n < |f.tx.vout| && OutputsFiled(o, q, f, indices, n)
    requires NoHoles(p) && Extends(q, p) && k == |Bucket(q, FiledAmount(f.tx, n))|
    requires |Bucket(p, FiledAmount(f.tx, n))| == k + 1 && ResolvesAt(p, f, n, k)
    requires forall a :: a != FiledAmount(f.tx, n) ==> Bucket(p, a) == Bucket(q, a)
    ensures OutputsFiled(o, p, f, indices + [k], n + 1)
  {
    forall a ensures Bucket(o, a) <= Bucket(p, a) {
      assert Bucket(o, a) <= Bucket(q, a) <= Bucket(p, a);
    }
    forall i | 0 <= i < n + 1 ensures ResolvesAt(p, f, i, (indices + [k])[i]) {
      if i < n { ExtendsKeepsResolves(q, p, f, i, indices[i]); }
    }
    forall a, j | |Bucket(o, a)| <= j < |Bucket(p, a)| ensures OwnedBy(p, a, j, f, indices + [k]) {
      if j < |Bucket(q, a)| {
        ExtendsKeepsOwned(q, p, a, j, f, indices, indices + [k]);
      } else {
        assert a == FiledAmount(f.tx, n) && j == k;
      }
    }
  }
}
