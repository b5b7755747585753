/** The search loop of the depth tool. */
module DepthSearch {
  import opened Tables
  import opened Ledger
  import opened Offsets
  import opened RingGraph
  import opened DepthProof

  method ScanForKey(vout: seq<TxOut>, key: Key) returns (r: OutScan)
    ensures r == ScanOuts(vout, key)
  {
    for out := 0 to |vout|
      invariant ScanOuts(vout, key) == ScanOuts(vout[out..], key)
    {
      if !vout[out].target.ToKeyOut? { return Malformed; }
      if vout[out].target.key == key { return Found; }
    }
    r := Absent;
  }

  /** Finds the transaction that created an output, in the block the output is in. */
  method FindOrigin(db: ChainDb, amount: Amount, index: nat) returns (r: Result<Hash>)
    ensures r == Origin(db, amount, index)
  {
    if (amount, index) !in db.outputs { return Failure(OutputMissing); }
    var od := db.outputs[(amount, index)];
    if od.height !in db.blocks { return Failure(BlockMissing); }
    var blk := db.blocks[od.height];
    var s := ScanForKey(blk.minerTx.vout, od.pubkey);
    if s == Found { return Success(blk.minerTx.hash); }
    if s == Malformed { return Failure(BadVout); }
    for i := 0 to |blk.txHashes|
      invariant OriginIn(db, blk.txHashes, od.pubkey) == OriginIn(db, blk.txHashes[i..], od.pubkey)
    {
      if blk.txHashes[i] !in db.txs { return Failure(TxMissing); }
      s := ScanForKey(db.txs[blk.txHashes[i]].vout, od.pubkey);
      if s == Found { return Success(blk.txHashes[i]); }
      if s == Malformed { return Failure(BadVout); }
    }
    r := Failure(OriginMissing);
  }

  /** The creators of the members of one ring. */
  method FindRing(db: ChainDb, amount: Amount, offsets: seq<nat>) returns (r: Result<seq<Hash>>)
    ensures r == RingRefs(db, amount, offsets)
  {
    var refs: seq<Hash> := [];
    ghost var all := RingRefs(db, amount, offsets);
    assert offsets[0..] == offsets && (all.Success? ==> [] + all.value == all.value);
    for k := 0 to |offsets|
      invariant RingRefs(db, amount, offsets) == After(refs, RingRefs(db, amount, offsets[k..]))
    {
      var origin := FindOrigin(db, amount, offsets[k]);
      if origin.Failure? { return Failure(origin.error); }
      assert offsets[k..][1..] == offsets[k + 1..];
      var rest := RingRefs(db, amount, offsets[k + 1..]);
      assert rest.Success? ==> refs + ([origin.value] + rest.value) == refs + [origin.value] + rest.value;
      refs := refs + [origin.value];
    }
    assert offsets[|offsets|..] == [] && refs + [] == refs;
    r := Success(refs);
  }

  function After(refs: seq<Hash>, r: Result<seq<Hash>>): Result<seq<Hash>> {
    if r.Failure? then r else Success(refs + r.value)
  }

  /** One transaction of the frontier: a generation input ends the scan at once. */
  method ScanTransaction(db: ChainDb, txid: Hash) returns (s: TxScan)
    ensures s == ScanTx(db, txid)
  {
    if txid !in db.txs { return Failed(TxMissing); }
    var vin := db.txs[txid].vin;
    var refs: seq<Hash> := [];
    for ring := 0 to |vin|
      invariant ScanVin(db, vin) == Prepend(refs, ScanVin(db, vin[ring..]))
    {
      if vin[ring].Gen? { return Coinbase; }
      if !vin[ring].ToKey? { return Failed(BadVin); }
      var offsets := ToAbsolute(vin[ring].offsets);
      var r := FindRing(db, vin[ring].amount, offsets);
      if r.Failure? { return Failed(r.error); }
      assert vin[ring..][1..] == vin[ring + 1..];
      PrependTwice(refs, r.value, ScanVin(db, vin[ring + 1..]));
      refs := refs + r.value;
    }
    s := Refs(refs);
  }

  lemma PrependTwice(a: seq<Hash>, b: seq<Hash>, s: TxScan)
    ensures Prepend(a, Prepend(b, s)) == Prepend(a + b, s)
  {
    if s.Refs? { assert a + (b + s.txids) == a + b + s.txids; }
  }

  method ScanFrontier(db: ChainDb, txids: seq<Hash>) returns (s: TxScan)
    ensures s == ScanLevel(db, txids)
  {
    var newTxids: seq<Hash> := [];
    for i := 0 to |txids|
      invariant ScanLevel(db, txids) == Prepend(newTxids, ScanLevel(db, txids[i..]))
    {
      var t := ScanTransaction(db, txids[i]);
      assert txids[i..][1..] == txids[i + 1..];
      if !t.Refs? { return t; }
      PrependTwice(newTxids, t.txids, ScanLevel(db, txids[i + 1..]));
      newTxids := newTxids + t.txids;
    }
    s := Refs(newTxids);
  }

  /** The search from one transaction, wherever it ends: the reported depth is the length of
      the shortest chain of ring references to a coinbase; an error comes from a transaction
      that is reached before any coinbase. */
  method FindDepth(db: ChainDb, start: Hash) returns (r: Result<nat>)
    requires Ends(db, start)
    ensures r.Success? ==> ShortestTo(db, start, r.value)
    ensures r.Failure? ==> FailsAt(db, start, r.error)
  {
    ghost var last: nat :| EndsAt(db, start, last);
    var depth := 0;
    var txids := [start];
    while true
      invariant Frontier(db, start, depth) == Some(txids) && depth <= last
      decreases last - depth
    {
      var s := ScanFrontier(db, txids);
      match s {
        case Coinbase =>
          ShortestChain(db, start, depth);
          return Success(depth);
        case Failed(e) =>
          FailureIsNear(db, start, depth);
          return Failure(e);
        case Refs(newTxids) =>
          if depth == last { assert false; }
          txids := newTxids;
          depth := depth + 1;
      }
    }
  }

  lemma {:induction false} FailureIsNear(db: ChainDb, start: Hash, d: nat)
    requires Frontier(db, start, d).Some? && ScanLevel(db, Frontier(db, start, d).value).Failed?
    ensures FailsAt(db, start, ScanLevel(db, Frontier(db, start, d).value).error)
  {
    FrontierIsDistance(db, start, d);
    var t := ScanLevelEnds(db, Frontier(db, start, d).value);
    FrontierNoneNearer(db, start, d);
    ScanFailsExactly(db, t);
    assert Reaches(db, start, t, d) && NoneNearer(db, start, d);
  }

  /** The error is that of a transaction that cannot be followed and is reached before any coinbase. */
  ghost predicate FailsAt(db: ChainDb, start: Hash, error: DepthError) {
    exists u, d: nat :: Reaches(db, start, u, d) && CannotFollow(db, u, error) && NoneNearer(db, start, d)
  }

  /** The loop over the start transactions: all depths, or the first error. */
  method FindDepths(db: ChainDb, starts: seq<Hash>) returns (r: Result<seq<nat>>)
    requires forall i :: 0 <= i < |starts| ==> Ends(db, starts[i])
    ensures r.Success? ==> |r.value| == |starts|
    ensures r.Success? ==> forall i :: 0 <= i < |starts| ==> ShortestTo(db, starts[i], r.value[i])
    ensures r.Failure? ==> exists i :: 0 <= i < |starts| && FailsAt(db, starts[i], r.error)
  {
    var depths: seq<nat> := [];
    for i := 0 to |starts|
      invariant |depths| == i && forall j :: 0 <= j < i ==> ShortestTo(db, starts[j], depths[j])
    {
      var d := FindDepth(db, starts[i]);
      if d.Failure? {
        assert FailsAt(db, starts[i], d.error);
        return Failure(d.error);
      }
      depths := depths + [d.value];
    }
    r := Success(depths);
  }
}
