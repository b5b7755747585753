/** The chain as the depth tool reads it, and the graph of ring references in it. */
module RingGraph {
  import opened Tables
  import opened Ledger
  import opened Offsets

  datatype OutputData = OutputData(height: nat, pubkey: Key)

  /** What the tool looks up: transactions by hash, outputs by amount and index, blocks by height. */
  datatype ChainDb = ChainDb(
    txs: map<Hash, Transaction>,
    outputs: map<(Amount, nat), OutputData>,
    blocks: map<nat, Block>)

  datatype DepthError = TxMissing | OutputMissing | BlockMissing | BadVin | BadVout | OriginMissing

  datatype Result<+T> = Success(value: T) | Failure(error: DepthError)

  // ----- the transaction that created an output

  datatype OutScan = Found | Absent | Malformed

  /** Walks the outputs for a key; an output of another kind on the way is an error. */
  function ScanOuts(vout: seq<TxOut>, key: Key): OutScan {
    if vout == [] then Absent
    else if !vout[0].target.ToKeyOut? then Malformed
    else if vout[0].target.key == key then Found
    else ScanOuts(vout[1..], key)
  }

  function OriginIn(db: ChainDb, hashes: seq<Hash>, key: Key): Result<Hash> {
    if hashes == [] then Failure(OriginMissing)
    else if hashes[0] !in db.txs then Failure(TxMissing)
    else
      match ScanOuts(db.txs[hashes[0]].vout, key)
      case Found => Success(hashes[0])
      case Malformed => Failure(BadVout)
      case Absent => OriginIn(db, hashes[1..], key)
  }

  function Origin(db: ChainDb, amount: Amount, index: nat): Result<Hash> {
    if (amount, index) !in db.outputs then Failure(OutputMissing)
    else
      var od := db.outputs[(amount, index)];
      if od.height !in db.blocks then Failure(BlockMissing)
      else
        var blk := db.blocks[od.height];
        match ScanOuts(blk.minerTx.vout, od.pubkey)
        case Found => Success(blk.minerTx.hash)
        case Malformed => Failure(BadVout)
        case Absent => OriginIn(db, blk.txHashes, od.pubkey)
  }

  // ----- references

  function RingRefs(db: ChainDb, amount: Amount, offsets: seq<nat>): Result<seq<Hash>> {
    if offsets == [] then Success([])
    else
      var first := Origin(db, amount, offsets[0]);
      if first.Failure? then Failure(first.error)
      else
        var rest := RingRefs(db, amount, offsets[1..]);
        if rest.Failure? then rest else Success([first.value] + rest.value)
  }

  /** What a scan ends with: a generation input, an error, or the referenced transactions. */
  datatype TxScan = Coinbase | Failed(error: DepthError) | Refs(txids: seq<Hash>)

  function Prepend(acc: seq<Hash>, s: TxScan): TxScan {
    if s.Refs? then Refs(acc + s.txids) else s
  }

  function ScanVin(db: ChainDb, vin: seq<TxIn>): TxScan {
    if vin == [] then Refs([])
    else
      match vin[0]
      case Gen(_) => Coinbase
      case ToKey(amount, offsets, _) =>
        var r := RingRefs(db, amount, AbsoluteOffsets(offsets));
        if r.Failure? then Failed(r.error) else Prepend(r.value, ScanVin(db, vin[1..]))
      case _ => Failed(BadVin)
  }

  function ScanTx(db: ChainDb, txid: Hash): TxScan {
    if txid !in db.txs then Failed(TxMissing) else ScanVin(db, db.txs[txid].vin)
  }

  function ScanLevel(db: ChainDb, txids: seq<Hash>): TxScan {
    if txids == [] then Refs([])
    else
      var s := ScanTx(db, txids[0]);
      if !s.Refs? then s else Prepend(s.txids, ScanLevel(db, txids[1..]))
  }

  /** The transactions considered at a depth, as long as no earlier depth ended the search. */
  function Frontier(db: ChainDb, start: Hash, depth: nat): Option<seq<Hash>> {
    if depth == 0 then Some([start])
    else
      var f := Frontier(db, start, depth - 1);
      if f.None? then None
      else
        var s := ScanLevel(db, f.value);
        if s.Refs? then Some(s.txids) else None
  }

  // ----- the graph

  predicate IsCoinbase(db: ChainDb, t: Hash) { t in db.txs && HasGen(db.txs[t].vin) }

  /** The creator of ring member k: its index is the sum of the offsets up to it. */
  function Member(db: ChainDb, amount: Amount, offsets: seq<Word>, k: nat): Result<Hash>
    requires k < |offsets|
  {
    Origin(db, amount, Sum(offsets[..k + 1]) % TWO_64)
  }

  /** Ring member k of input i of t was created by u. */
  predicate RefersAt(db: ChainDb, vin: seq<TxIn>, i: nat, k: nat, u: Hash) {
    && i < |vin| && vin[i].ToKey? && k < |vin[i].offsets|
    && Member(db, vin[i].amount, vin[i].offsets, k) == Success(u)
  }

  /** The input is of a kind that the tool does not know, or a ring member has no origin. */
  predicate Stuck(db: ChainDb, input: TxIn, error: DepthError) {
    match input
    case Gen(_) => false
    case ToKey(amount, offsets, _) =>
      exists k :: 0 <= k < |offsets| && Member(db, amount, offsets, k) == Failure(error)
    case _ => error == BadVin
  }

  /** The transaction is missing, or stuck at an input with no generation input up to it. */
  predicate CannotFollow(db: ChainDb, t: Hash, error: DepthError) {
    if t !in db.txs then error == TxMissing
    else exists i :: 0 <= i < |db.txs[t].vin| && StuckAt(db, db.txs[t].vin, i, error)
  }

  predicate StuckAt(db: ChainDb, vin: seq<TxIn>, i: nat, error: DepthError)
    requires i < |vin|
  {
    Stuck(db, vin[i], error) && !HasGen(vin[..i])
  }

  ghost predicate Edge(db: ChainDb, t: Hash, u: Hash) {
    t in db.txs && exists i: nat, k: nat :: RefersAt(db, db.txs[t].vin, i, k, u)
  }

  ghost predicate Chain(db: ChainDb, path: seq<Hash>, from: Hash, to: Hash) {
    && path != [] && path[0] == from && path[|path| - 1] == to
    && forall i :: 0 < i < |path| ==> Edge(db, path[i - 1], path[i])
  }

  /** A chain of that many references. */
  ghost predicate Reaches(db: ChainDb, from: Hash, to: Hash, steps: nat) {
    exists path: seq<Hash> :: |path| == steps + 1 && Chain(db, path, from, to)
  }
}
