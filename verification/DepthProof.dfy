/** The depth search finds the shortest chain of ring references to a coinbase, and when it ends. */
module DepthProof {
  import opened Tables
  import opened Ledger
  import opened Offsets
  import opened RingGraph

  // ----- what a scan that finds no end collects

  lemma {:induction false} RingRefsAre(db: ChainDb, amount: Amount, offsets: seq<nat>)
    requires RingRefs(db, amount, offsets).Success?
    ensures var r := RingRefs(db, amount, offsets).value;
            |r| == |offsets| && forall k :: 0 <= k < |r| ==> Origin(db, amount, offsets[k]) == Success(r[k])
  {
    if offsets != [] { RingRefsAre(db, amount, offsets[1..]); }
  }

  /** The members of a ring are at the absolute offsets. */
  lemma {:induction false} RingMembers(db: ChainDb, amount: Amount, offsets: seq<Word>)
    ensures forall k :: 0 <= k < |offsets| ==>
              Member(db, amount, offsets, k) == Origin(db, amount, AbsoluteOffsets(offsets)[k])
  {
    forall k | 0 <= k < |offsets|
      ensures Member(db, amount, offsets, k) == Origin(db, amount, AbsoluteOffsets(offsets)[k])
    {
      AbsoluteIsSum(offsets, k);
    }
  }

  lemma {:induction false} ScanVinRefs(db: ChainDb, vin: seq<TxIn>)
    requires ScanVin(db, vin).Refs?
    ensures forall i :: 0 <= i < |vin| ==> vin[i].ToKey?
    ensures forall u :: u in ScanVin(db, vin).txids <==> exists i: nat, k: nat :: RefersAt(db, vin, i, k, u)
  {
    if vin != [] {
      ScanVinRefs(db, vin[1..]);
      var abs := AbsoluteOffsets(vin[0].offsets);
      var r := RingRefs(db, vin[0].amount, abs).value;
      var rest := ScanVin(db, vin[1..]).txids;
      RingRefsAre(db, vin[0].amount, abs);
      RingMembers(db, vin[0].amount, vin[0].offsets);
      forall u | u in r + rest ensures exists i: nat, k: nat :: RefersAt(db, vin, i, k, u) {
        if u in r {
          var k :| 0 <= k < |r| && r[k] == u;
          assert RefersAt(db, vin, 0, k, u);
        } else {
          var i: nat, k: nat :| RefersAt(db, vin[1..], i, k, u);
          assert RefersAt(db, vin, i + 1, k, u);
        }
      }
      forall u, i: nat, k: nat | RefersAt(db, vin, i, k, u) ensures u in r + rest {
        if i == 0 {
          assert r[k] == u;
        } else {
          assert RefersAt(db, vin[1..], i - 1, k, u);
        }
      }
    }
  }

  lemma ScanTxRefs(db: ChainDb, t: Hash)
    requires ScanTx(db, t).Refs?
    ensures !IsCoinbase(db, t)
    ensures forall u :: u in ScanTx(db, t).txids <==> Edge(db, t, u)
  {
    ScanVinRefs(db, db.txs[t].vin);
  }

  lemma {:induction false} ScanLevelRefs(db: ChainDb, txids: seq<Hash>)
    requires ScanLevel(db, txids).Refs?
    ensures forall t :: t in txids ==> ScanTx(db, t).Refs? && !IsCoinbase(db, t)
    ensures forall u :: u in ScanLevel(db, txids).txids <==> exists t :: t in txids && Edge(db, t, u)
  {
    if txids != [] {
      ScanTxRefs(db, txids[0]);
      ScanLevelRefs(db, txids[1..]);
      assert txids == [txids[0]] + txids[1..];
    }
  }

  /** A scan that ends does so at one of the transactions of the level. */
  lemma {:induction false} ScanLevelEnds(db: ChainDb, txids: seq<Hash>) returns (t: Hash)
    requires !ScanLevel(db, txids).Refs?
    ensures t in txids && ScanTx(db, t) == ScanLevel(db, txids)
  {
    if !ScanTx(db, txids[0]).Refs? { t := txids[0]; } else { t := ScanLevelEnds(db, txids[1..]); }
  }

  lemma {:induction false} ScanVinCoinbase(db: ChainDb, vin: seq<TxIn>)
    requires ScanVin(db, vin).Coinbase?
    ensures HasGen(vin)
  {
    if !vin[0].Gen? {
      ScanVinCoinbase(db, vin[1..]);
      var i :| 0 <= i < |vin[1..]| && vin[1..][i].Gen?;
      assert vin[i + 1].Gen?;
    }
  }

  // ----- when a scan fails

  lemma {:induction false} RingFailsExactly(db: ChainDb, amount: Amount, offsets: seq<nat>)
    ensures RingRefs(db, amount, offsets).Failure? <==>
            exists k :: 0 <= k < |offsets| && Origin(db, amount, offsets[k]).Failure?
    ensures var r := RingRefs(db, amount, offsets);
            r.Failure? ==> exists k :: 0 <= k < |offsets| && Origin(db, amount, offsets[k]) == Failure(r.error)
  {
    if offsets != [] {
      var rest := offsets[1..];
      RingFailsExactly(db, amount, rest);
      forall k | 0 <= k < |rest| ensures rest[k] == offsets[k + 1] { }
      if Origin(db, amount, offsets[0]).Success? && RingRefs(db, amount, rest).Failure? {
        var k :| 0 <= k < |rest| && Origin(db, amount, rest[k]) == Failure(RingRefs(db, amount, rest).error);
        assert offsets[k + 1] == rest[k];
      }
      if k :| 0 < k < |offsets| && Origin(db, amount, offsets[k]).Failure? {
        assert rest[k - 1] == offsets[k];
      }
    }
  }

  lemma {:induction false} InputStuckExactly(db: ChainDb, amount: Amount, offsets: seq<Word>, image: KeyImage)
    ensures var r := RingRefs(db, amount, AbsoluteOffsets(offsets));
            && (r.Failure? <==> exists e :: Stuck(db, ToKey(amount, offsets, image), e))
            && (r.Failure? ==> Stuck(db, ToKey(amount, offsets, image), r.error))
  {
    var abs := AbsoluteOffsets(offsets);
    RingFailsExactly(db, amount, abs);
    RingMembers(db, amount, offsets);
    if e :| Stuck(db, ToKey(amount, offsets, image), e) {
      var k :| 0 <= k < |offsets| && Member(db, amount, offsets, k) == Failure(e);
      assert Origin(db, amount, abs[k]).Failure?;
    }
    var r := RingRefs(db, amount, abs);
    if r.Failure? {
      var k :| 0 <= k < |abs| && Origin(db, amount, abs[k]) == Failure(r.error);
      assert Member(db, amount, offsets, k) == Failure(r.error);
      assert Stuck(db, ToKey(amount, offsets, image), r.error);
    }
  }

  /** A list of inputs is stuck at its first input, or behind it. */
  lemma StuckBehind(db: ChainDb, vin: seq<TxIn>, i: nat, e: DepthError)
    requires 0 < i < |vin|
    ensures StuckAt(db, vin, i, e) <==> !vin[0].Gen? && StuckAt(db, vin[1..], i - 1, e)
  {
    assert vin[..i] == [vin[0]] + vin[1..][..i - 1];
    assert vin[1..][i - 1] == vin[i];
    if HasGen(vin[1..][..i - 1]) {
      var j :| 0 <= j < i - 1 && vin[1..][..i - 1][j].Gen?;
      assert vin[..i][j + 1].Gen?;
    }
    if HasGen(vin[..i]) && !vin[0].Gen? {
      var j :| 0 <= j < i && vin[..i][j].Gen?;
      assert vin[1..][..i - 1][j - 1].Gen?;
    }
  }

  lemma {:induction false} ScanVinFails(db: ChainDb, vin: seq<TxIn>)
    ensures ScanVin(db, vin).Failed? <==> exists i, e :: 0 <= i < |vin| && StuckAt(db, vin, i, e)
    ensures ScanVin(db, vin).Failed? ==> exists i :: 0 <= i < |vin| && StuckAt(db, vin, i, ScanVin(db, vin).error)
  {
    if vin != [] {
      var rest := vin[1..];
      ScanVinFails(db, rest);
      if vin[0].ToKey? { InputStuckExactly(db, vin[0].amount, vin[0].offsets, vin[0].image); }
      forall i, e | 0 < i < |vin| ensures StuckAt(db, vin, i, e) <==> !vin[0].Gen? && StuckAt(db, rest, i - 1, e) {
        StuckBehind(db, vin, i, e);
      }
      if i, e :| 0 <= i < |vin| && StuckAt(db, vin, i, e) {
        assert i > 0 ==> StuckAt(db, rest, i - 1, e);
      }
      if ScanVin(db, vin).Failed? {
        var e := ScanVin(db, vin).error;
        if Stuck(db, vin[0], e) {
          assert StuckAt(db, vin, 0, e);
        } else {
          var i :| 0 <= i < |rest| && StuckAt(db, rest, i, e);
          assert StuckAt(db, vin, i + 1, e);
        }
      }
    }
  }

  /** The scan of a transaction fails if and only if it cannot be followed, and then says why. */
  lemma ScanFailsExactly(db: ChainDb, t: Hash)
    ensures ScanTx(db, t).Failed? <==> exists e :: CannotFollow(db, t, e)
    ensures ScanTx(db, t).Failed? ==> CannotFollow(db, t, ScanTx(db, t).error)
  {
    if t in db.txs {
      var vin := db.txs[t].vin;
      ScanVinFails(db, vin);
      if e :| CannotFollow(db, t, e) {
        var i :| 0 <= i < |vin| && StuckAt(db, vin, i, e);
        assert ScanVin(db, vin).Failed?;
      }
      if ScanVin(db, vin).Failed? { assert CannotFollow(db, t, ScanVin(db, vin).error); }
    } else {
      assert CannotFollow(db, t, TxMissing);
    }
  }

  /** The search leaves at a transaction that is a coinbase or cannot be followed, and at no other. */
  ghost predicate Leaves(db: ChainDb, t: Hash) { IsCoinbase(db, t) || exists e :: CannotFollow(db, t, e) }

  lemma LeavesExactly(db: ChainDb, t: Hash)
    ensures !ScanTx(db, t).Refs? <==> Leaves(db, t)
  {
    ScanFailsExactly(db, t);
    if ScanTx(db, t).Refs? { ScanTxRefs(db, t); }
    if ScanTx(db, t).Coinbase? { ScanVinCoinbase(db, db.txs[t].vin); }
  }

  // ----- frontiers are distances

  lemma {:induction false} ReachesLast(db: ChainDb, from: Hash, to: Hash, steps: nat) returns (t: Hash)
    requires steps > 0 && Reaches(db, from, to, steps)
    ensures Reaches(db, from, t, steps - 1) && Edge(db, t, to)
  {
    var path :| |path| == steps + 1 && Chain(db, path, from, to);
    t := path[steps - 1];
    assert Chain(db, path[..steps], from, t);
    assert Edge(db, path[steps - 1], path[steps]);
  }

  lemma {:induction false} ReachesOneMore(db: ChainDb, from: Hash, t: Hash, to: Hash, steps: nat)
    requires Reaches(db, from, t, steps) && Edge(db, t, to)
    ensures Reaches(db, from, to, steps + 1)
  {
    var path :| |path| == steps + 1 && Chain(db, path, from, t);
    assert Chain(db, path + [to], from, to);
  }

  lemma {:induction false} ReachesStep(db: ChainDb, from: Hash, to: Hash, steps: nat)
    requires steps > 0
    ensures Reaches(db, from, to, steps) <==>
            exists t :: Reaches(db, from, t, steps - 1) && Edge(db, t, to)
  {
    if Reaches(db, from, to, steps) {
      var t := ReachesLast(db, from, to, steps);
    }
    if t :| Reaches(db, from, t, steps - 1) && Edge(db, t, to) {
      ReachesOneMore(db, from, t, to, steps - 1);
    }
  }

  /** Frontier d holds exactly the transactions reached by d references. */
  lemma {:induction false} FrontierIsDistance(db: ChainDb, start: Hash, d: nat)
    requires Frontier(db, start, d).Some?
    ensures forall u :: u in Frontier(db, start, d).value <==> Reaches(db, start, u, d)
  {
    if d == 0 {
      assert Chain(db, [start], start, start);
      assert Reaches(db, start, start, 0);
    } else {
      var f := Frontier(db, start, d - 1).value;
      FrontierIsDistance(db, start, d - 1);
      ScanLevelRefs(db, f);
      forall u ensures u in Frontier(db, start, d).value <==> Reaches(db, start, u, d) {
        ReachesStep(db, start, u, d);
      }
    }
  }

  lemma {:induction false} EarlierFrontiers(db: ChainDb, start: Hash, e: nat, d: nat)
    requires e < d && Frontier(db, start, d).Some?
    ensures Frontier(db, start, e).Some? && ScanLevel(db, Frontier(db, start, e).value).Refs?
  {
    if e < d - 1 { EarlierFrontiers(db, start, e, d - 1); }
  }

  /** No coinbase is nearer than a frontier that was reached. */
  lemma {:induction false} NoCoinbaseBefore(db: ChainDb, start: Hash, d: nat, e: nat, u: Hash)
    requires Frontier(db, start, d).Some? && e < d && Reaches(db, start, u, e)
    ensures !IsCoinbase(db, u) && ScanTx(db, u).Refs?
  {
    EarlierFrontiers(db, start, e, d);
    FrontierIsDistance(db, start, e);
    ScanLevelRefs(db, Frontier(db, start, e).value);
  }

  // ----- how the search ends

  /** The loop leaves at this depth, with a coinbase or with an error. */
  ghost predicate EndsAt(db: ChainDb, start: Hash, d: nat) {
    Frontier(db, start, d).Some? && !ScanLevel(db, Frontier(db, start, d).value).Refs?
  }

  ghost predicate Ends(db: ChainDb, start: Hash) { exists d: nat :: EndsAt(db, start, d) }

  /** No chain to a coinbase is shorter than d. */
  ghost predicate NoneNearer(db: ChainDb, start: Hash, d: nat) {
    forall e: nat, c :: IsCoinbase(db, c) && Reaches(db, start, c, e) ==> d <= e
  }

  /** The shortest chain from start to a coinbase has d references. */
  ghost predicate ShortestTo(db: ChainDb, start: Hash, d: nat) {
    NoneNearer(db, start, d) && exists c :: IsCoinbase(db, c) && Reaches(db, start, c, d)
  }

  lemma {:induction false} FrontierNoneNearer(db: ChainDb, start: Hash, d: nat)
    requires Frontier(db, start, d).Some?
    ensures NoneNearer(db, start, d)
  {
    forall e: nat, c | IsCoinbase(db, c) && Reaches(db, start, c, e) ensures d <= e {
      if e < d { NoCoinbaseBefore(db, start, d, e, c); }
    }
  }

  /** The depth that the search reports is the length of the shortest chain to a coinbase. */
  lemma {:induction false} ShortestChain(db: ChainDb, start: Hash, d: nat)
    requires Frontier(db, start, d).Some? && ScanLevel(db, Frontier(db, start, d).value).Coinbase?
    ensures ShortestTo(db, start, d)
  {
    FrontierNoneNearer(db, start, d);
    FrontierIsDistance(db, start, d);
    var t := ScanLevelEnds(db, Frontier(db, start, d).value);
    ScanVinCoinbase(db, db.txs[t].vin);
    assert IsCoinbase(db, t) && Reaches(db, start, t, d);
  }

  /** The search ends if and only if some chain leads to a coinbase or to a transaction that
      cannot be followed. */
  lemma EndsExactly(db: ChainDb, start: Hash)
    ensures Ends(db, start) <==> exists u, n: nat :: Reaches(db, start, u, n) && Leaves(db, u)
  {
    if Ends(db, start) {
      var d: nat :| EndsAt(db, start, d);
      FrontierIsDistance(db, start, d);
      var t := ScanLevelEnds(db, Frontier(db, start, d).value);
      LeavesExactly(db, t);
      assert Reaches(db, start, t, d) && Leaves(db, t);
    }
    if exists u, n: nat :: Reaches(db, start, u, n) && Leaves(db, u) {
      var u, n: nat :| Reaches(db, start, u, n) && Leaves(db, u);
      LeavesExactly(db, u);
      EndsBy(db, start, u, n);
    }
  }

  lemma EndsBy(db: ChainDb, start: Hash, u: Hash, n: nat)
    requires Reaches(db, start, u, n) && !ScanTx(db, u).Refs?
    ensures exists d: nat :: d <= n && EndsAt(db, start, d)
  {
    if Frontier(db, start, n).Some? {
      FrontierIsDistance(db, start, n);
      var f := Frontier(db, start, n).value;
      if ScanLevel(db, f).Refs? { ScanLevelRefs(db, f); }
      assert EndsAt(db, start, n);
    } else {
      var d := FirstGap(db, start, n);
      assert d <= n && EndsAt(db, start, d);
    }
  }

  lemma {:induction false} FirstGap(db: ChainDb, start: Hash, n: nat) returns (d: nat)
    requires Frontier(db, start, n).None?
    ensures d < n && EndsAt(db, start, d)
  {
    if Frontier(db, start, n - 1).None? { d := FirstGap(db, start, n - 1); } else { d := n - 1; }
  }

  // ----- chains in which references lead to lower blocks

  /** Ring members lie in strictly lower blocks. */
  ghost predicate Descends(db: ChainDb, height: Hash -> nat) {
    forall t, u :: Edge(db, t, u) ==> height(u) < height(t)
  }

  /** A transaction without generation input has inputs, and its rings have members. */
  predicate RingsNotEmpty(db: ChainDb) {
    forall t <- db.txs :: !HasGen(db.txs[t].vin) ==>
      db.txs[t].vin != [] && (db.txs[t].vin[0].ToKey? ==> db.txs[t].vin[0].offsets != [])
  }

  lemma RefsNotEmpty(db: ChainDb, t: Hash)
    requires RingsNotEmpty(db) && ScanTx(db, t).Refs?
    ensures ScanTx(db, t).txids != []
  {
    var vin := db.txs[t].vin;
    ScanTxRefs(db, t);
    ScanVinRefs(db, vin);
    assert vin[0].ToKey?;
    RingRefsAre(db, vin[0].amount, AbsoluteOffsets(vin[0].offsets));
  }

  lemma {:induction false} FrontierSinks(db: ChainDb, height: Hash -> nat, start: Hash, d: nat)
    requires Descends(db, height) && RingsNotEmpty(db) && Frontier(db, start, d).Some?
    ensures Frontier(db, start, d).value != [] && d <= height(start)
    ensures forall u :: u in Frontier(db, start, d).value ==> height(u) + d <= height(start)
  {
    if d > 0 {
      var f := Frontier(db, start, d - 1).value;
      FrontierSinks(db, height, start, d - 1);
      ScanLevelRefs(db, f);
      assert f[0] in f;
      RefsNotEmpty(db, f[0]);
      ScanTxRefs(db, f[0]);
      var u := ScanTx(db, f[0]).txids[0];
      assert Edge(db, f[0], u) && u in Frontier(db, start, d).value;
    }
  }

  /** On such a chain the search always ends, no deeper than the height of its start. */
  lemma EndsWithinHeight(db: ChainDb, height: Hash -> nat, start: Hash)
    requires Descends(db, height) && RingsNotEmpty(db)
    ensures exists d: nat :: d <= height(start) && EndsAt(db, start, d)
  {
    var n := height(start) + 1;
    if Frontier(db, start, n).Some? {
      FrontierSinks(db, height, start, n);
    }
    var d := FirstGap(db, start, n);
    assert d <= height(start) && EndsAt(db, start, d);
  }

  /** Without that: from a transaction with no inputs at all the loop never ends. */
  lemma {:induction false} NoInputsNeverEnds(db: ChainDb, start: Hash, d: nat)
    requires start in db.txs && db.txs[start].vin == []
    ensures Frontier(db, start, d) == Some(if d == 0 then [start] else []) && !EndsAt(db, start, d)
  {
    assert ScanTx(db, start) == Refs([]);
    assert [start][1..] == [] && ScanLevel(db, []) == Refs([]);
    assert ScanLevel(db, [start]) == Refs([]);
    if d > 0 { NoInputsNeverEnds(db, start, d - 1); }
  }

  // ----- the origin found by key is the creating transaction

  predicate HasOut(vout: seq<TxOut>, key: Key) {
    exists i :: 0 <= i < |vout| && vout[i].target == ToKeyOut(key)
  }

  predicate PlainOuts(vout: seq<TxOut>) {
    forall i :: 0 <= i < |vout| ==> vout[i].target.ToKeyOut?
  }

  /** u is a transaction of the block and has an output with this key. */
  predicate Creates(db: ChainDb, blk: Block, key: Key, u: Hash) {
    || (u == blk.minerTx.hash && HasOut(blk.minerTx.vout, key))
    || (u in blk.txHashes && u in db.txs && HasOut(db.txs[u].vout, key))
  }

  /** All transactions of the block are stored with plain outputs, and one at most has the key. */
  ghost predicate UniqueIn(db: ChainDb, blk: Block, key: Key) {
    && PlainOuts(blk.minerTx.vout)
    && (forall u :: u in blk.txHashes ==> u in db.txs && PlainOuts(db.txs[u].vout))
    && forall u, v :: Creates(db, blk, key, u) && Creates(db, blk, key, v) ==> u == v
  }

  lemma {:induction false} ScanOutsFinds(vout: seq<TxOut>, key: Key)
    requires PlainOuts(vout)
    ensures ScanOuts(vout, key) == if HasOut(vout, key) then Found else Absent
  {
    ScanOutsJustified(vout, key);
  }

  lemma {:induction false} OriginInFinds(db: ChainDb, hashes: seq<Hash>, key: Key)
    requires forall u :: u in hashes ==> u in db.txs && PlainOuts(db.txs[u].vout)
    ensures var r := OriginIn(db, hashes, key);
            if exists u :: u in hashes && HasOut(db.txs[u].vout, key)
            then r.Success? && r.value in hashes && HasOut(db.txs[r.value].vout, key)
            else r == Failure(OriginMissing)
  {
    if hashes != [] {
      ScanOutsFinds(db.txs[hashes[0]].vout, key);
      OriginInFinds(db, hashes[1..], key);
      assert hashes == [hashes[0]] + hashes[1..];
    }
  }

  /** The lookup by key finds the creating transaction, and fails exactly when there is none. */
  lemma OriginIsCreator(db: ChainDb, amount: Amount, index: nat)
    requires (amount, index) in db.outputs
    requires var od := db.outputs[(amount, index)];
             od.height in db.blocks && UniqueIn(db, db.blocks[od.height], od.pubkey)
    ensures var od := db.outputs[(amount, index)];
            && (forall u: Hash :: Origin(db, amount, index) == Success(u) <==>
                            Creates(db, db.blocks[od.height], od.pubkey, u))
            && (Origin(db, amount, index).Failure? ==> Origin(db, amount, index) == Failure(OriginMissing))
  {
    var od := db.outputs[(amount, index)];
    var blk := db.blocks[od.height];
    ScanOutsFinds(blk.minerTx.vout, od.pubkey);
    OriginInFinds(db, blk.txHashes, od.pubkey);
    var r := Origin(db, amount, index);
    assert r.Success? ==> Creates(db, blk, od.pubkey, r.value);
  }

  lemma OutsFromFirst(vout: seq<TxOut>, key: Key)
    requires vout != []
    ensures HasOut(vout, key) <==> vout[0].target == ToKeyOut(key) || HasOut(vout[1..], key)
    ensures PlainOuts(vout) <==> vout[0].target.ToKeyOut? && PlainOuts(vout[1..])
  {
    assert vout == [vout[0]] + vout[1..];
    if HasOut(vout[1..], key) {
      var i :| 0 <= i < |vout[1..]| && vout[1..][i].target == ToKeyOut(key);
      assert vout[i + 1].target == ToKeyOut(key);
    }
  }

  lemma {:induction false} ScanOutsJustified(vout: seq<TxOut>, key: Key)
    ensures ScanOuts(vout, key) == Found ==> HasOut(vout, key)
    ensures ScanOuts(vout, key) == Malformed ==> !PlainOuts(vout)
    ensures ScanOuts(vout, key) == Absent ==> PlainOuts(vout) && !HasOut(vout, key)
  {
    if vout != [] {
      ScanOutsJustified(vout[1..], key);
      OutsFromFirst(vout, key);
    }
  }

  lemma {:induction false} OriginInJustified(db: ChainDb, hashes: seq<Hash>, key: Key)
    ensures match OriginIn(db, hashes, key)
            case Success(u) => u in hashes && u in db.txs && HasOut(db.txs[u].vout, key)
            case Failure(TxMissing) => exists u :: u in hashes && u !in db.txs
            case Failure(BadVout) => exists u :: u in hashes && u in db.txs && !PlainOuts(db.txs[u].vout)
            case Failure(OriginMissing) => forall u :: u in hashes ==> u in db.txs && !HasOut(db.txs[u].vout, key)
            case _ => false
  {
    if hashes != [] {
      OriginInJustified(db, hashes[1..], key);
      assert hashes[0] in hashes && forall u :: u in hashes[1..] ==> u in hashes;
      if hashes[0] in db.txs { ScanOutsJustified(db.txs[hashes[0]].vout, key); }
    }
  }

  /** In any chain the lookup yields a creator, and every failure has the cause that it names. */
  lemma OriginJustified(db: ChainDb, amount: Amount, index: nat)
    ensures match Origin(db, amount, index)
            case Failure(OutputMissing) => (amount, index) !in db.outputs
            case r =>
              && (amount, index) in db.outputs
              && var od := db.outputs[(amount, index)];
                 if od.height !in db.blocks then r == Failure(BlockMissing)
                 else
                   var blk := db.blocks[od.height];
                   match r
                   case Success(u) => Creates(db, blk, od.pubkey, u)
                   case Failure(TxMissing) => exists u :: u in blk.txHashes && u !in db.txs
                   case Failure(BadVout) =>
                     || !PlainOuts(blk.minerTx.vout)
                     || exists u :: u in blk.txHashes && u in db.txs && !PlainOuts(db.txs[u].vout)
                   case Failure(OriginMissing) => forall u: Hash :: !Creates(db, blk, od.pubkey, u)
                   case _ => false
  {
    if (amount, index) in db.outputs && db.outputs[(amount, index)].height in db.blocks {
      var od := db.outputs[(amount, index)];
      ScanOutsJustified(db.blocks[od.height].minerTx.vout, od.pubkey);
      OriginInJustified(db, db.blocks[od.height].txHashes, od.pubkey);
    }
  }
}
