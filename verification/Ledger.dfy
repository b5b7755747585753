/** Blocks and transactions as the store sees them.  Hashes, key images, public keys and
    token ids are opaque numbers; `hash` and `id` stand for the values that the transaction
    and block hash functions yield. */
module Ledger {
  type Hash = nat
  type KeyImage = nat
  type Amount = nat

  const TWO_64: nat := 0x1_0000_0000_0000_0000

  /** An unsigned 64-bit number. */
  type Word = n: nat | n < TWO_64

  /** A curve point: an opaque one, or the identity-mask commitment to a plain amount. */
  datatype Key = Point(id: nat) | ZeroCommit(amount: Amount)

  const NULL_TOKEN: nat := 0

  const V2_RINGCT: nat := 2
  const V3_PER_OUTPUT_UNLOCK_TIMES: nat := 3

  datatype TxIn =
    | Gen(height: nat)
    | ToKey(amount: Amount, offsets: seq<Word>, image: KeyImage)
    | ZyInput(zyOffsets: seq<Word>, image: KeyImage)
    | ToScript

  datatype Target =
    | ToKeyOut(key: Key)
    | Zyphora(stealth: Key, commitment: Key, token: nat)
    | ToScriptOut

  datatype TxOut = TxOut(amount: Amount, target: Target)

  datatype Transaction = Transaction(
    hash: Hash,
    version: nat,
    unlockTime: nat,
    outputUnlockTimes: seq<nat>,
    vin: seq<TxIn>,
    vout: seq<TxOut>,
    outPk: seq<Key>)

  datatype Block = Block(id: Hash, prevId: Hash, minerTx: Transaction, txHashes: seq<Hash>)

  predicate HasImage(input: TxIn) { input.ToKey? || input.ZyInput? }

  predicate Supported(input: TxIn) { HasImage(input) || input.Gen? }

  predicate AllSupported(vin: seq<TxIn>) {
    forall i :: 0 <= i < |vin| ==> Supported(vin[i])
  }

  predicate HasGen(vin: seq<TxIn>) {
    exists i :: 0 <= i < |vin| && vin[i].Gen?
  }

  /** The key images of a list of inputs, in order. */
  function ImageList(vin: seq<TxIn>): seq<KeyImage> {
    if vin == [] then []
    else ImageList(vin[..|vin| - 1]) +
         if HasImage(vin[|vin| - 1]) then [vin[|vin| - 1].image] else []
  }

  function Images(vin: seq<TxIn>): set<KeyImage> {
    set k | k in ImageList(vin)
  }

  lemma ImageListStep(vin: seq<TxIn>, i: nat)
    requires i < |vin|
    ensures Images(vin[..i + 1]) == Images(vin[..i]) + if HasImage(vin[i]) then {vin[i].image} else {}
  {
    assert vin[..i + 1][..i] == vin[..i] && vin[..i + 1][i] == vin[i];
  }

  ghost predicate Distinct<T>(s: seq<T>) {
    forall i, j :: 0 <= i < j < |s| ==> s[i] != s[j]
  }

  lemma DistinctConcat<T>(a: seq<T>, b: seq<T>)
    requires Distinct(a) && Distinct(b) && forall x :: x in a ==> x !in b
    ensures Distinct(a + b)
  {
    forall i, j | 0 <= i < j < |a + b| ensures (a + b)[i] != (a + b)[j] {
      if i < |a| <= j {
        assert a[i] in a && b[j - |a|] in b;
      }
    }
  }

  predicate IsZyphora(out: TxOut) { out.target.Zyphora? }

  /** How many of the first n outputs are native, that is, not Zyphora outputs. */
  function NativeRank(vout: seq<TxOut>, n: nat): (r: nat)
    requires n <= |vout|
    ensures r <= n
  {
    if n == 0 then 0
    else NativeRank(vout, n - 1) + if IsZyphora(vout[n - 1]) then 0 else 1
  }

  /** The flag the addition path uses: any generation input makes a miner transaction, and a
      RingCT miner transaction has its outputs filed under amount 0. */
  predicate FiledAsCoinbase(tx: Transaction) {
    HasGen(tx.vin) && tx.version >= V2_RINGCT
  }

  /** The flag the removal path uses: exactly one input, and it is a generation input. */
  predicate RemovedAsCoinbase(tx: Transaction) {
    tx.version >= V2_RINGCT && |tx.vin| == 1 && tx.vin[0].Gen?
  }

  /** The amount under which output i is filed, and the one under which it is looked for. */
  function FiledAmount(tx: Transaction, i: nat): Amount
    requires i < |tx.vout|
  {
    if FiledAsCoinbase(tx) then 0 else tx.vout[i].amount
  }

  function RemovedAmount(tx: Transaction, i: nat): Amount
    requires i < |tx.vout|
  {
    if RemovedAsCoinbase(tx) then 0 else tx.vout[i].amount
  }
}
