/** Concrete blocks that the empty store accepts and that popping does not undo, one for each
    way in which a block can fail to be undoable. */
module RoundTripFails {
  import opened Ledger
  import opened Rounds
  import opened Store
  import opened BlockOps
  import opened Undo
  import opened UndoExact
  import opened OutputIndex
  import opened Acceptance

  const META: BlockMeta := BlockMeta(0, 0, 0, 0)

  function LoneBlock(tx: Transaction): Block { Block(9, 8, tx, []) }

  /** Two generation inputs: filed under amount 0, looked for under amount 5. */
  const TWO_GENS: Transaction :=
    Transaction(2, 2, 0, [], [Gen(0), Gen(0)], [TxOut(5, ToKeyOut(Point(1)))], [])

  /** A Zyphora output of amount 0 without a token id: its height entry is looked for in the
      wrong index. */
  const NO_TOKEN: Transaction :=
    Transaction(1, 2, 0, [], [Gen(0)], [TxOut(0, Zyphora(Point(1), Point(2), NULL_TOKEN))], [])

  /** An unsupported input: nothing is filed, but the block goes on. */
  const SCRIPT_INPUT: Transaction := Transaction(1, 2, 0, [], [ToScript], [], [])

  lemma AcceptedByEmpty(tx: Transaction)
    requires AddTransaction(NO_TXS, 0, tx.hash, tx).Ok?
    ensures AddBlock(EMPTY, LoneBlock(tx), META, []).Ok?
    ensures PopBlock(AddBlock(EMPTY, LoneBlock(tx), META, []).state) == Ok(EMPTY, (LoneBlock(tx), []))
            <==> Undoable(tx)
  {
    assert AddTxs(AddTransaction(NO_TXS, 0, tx.hash, tx).state, 0, [], []).Ok?;
    PopUndoesAddExactly(EMPTY, LoneBlock(tx), META, []);
  }

  lemma GensAccepted(tx: Transaction)
    requires forall i :: 0 <= i < |tx.vin| ==> tx.vin[i].Gen?
    requires forall i :: 0 <= i < |tx.vout| ==> OutputAccepted(tx, i)
    ensures AddTransaction(NO_TXS, 0, tx.hash, tx).Ok?
  {
    NoImages(tx.vin);
    AcceptedExactly(NO_TXS, Filed(tx.hash, 0, tx));
  }

  lemma {:induction false} NoImages(vin: seq<TxIn>)
    requires forall i :: 0 <= i < |vin| ==> vin[i].Gen?
    ensures ImageList(vin) == []
  {
    if vin != [] { NoImages(vin[..|vin| - 1]); }
  }

  lemma TwoGensNotUndone()
    ensures AddBlock(EMPTY, LoneBlock(TWO_GENS), META, []).Ok?
    ensures PopBlock(AddBlock(EMPTY, LoneBlock(TWO_GENS), META, []).state)
            != Ok(EMPTY, (LoneBlock(TWO_GENS), []))
  {
    assert TWO_GENS.vin[0].Gen?;
    GensAccepted(TWO_GENS);
    assert FiledAmount(TWO_GENS, 0) != RemovedAmount(TWO_GENS, 0);
    AcceptedByEmpty(TWO_GENS);
  }

  lemma NoTokenNotUndone()
    ensures AddBlock(EMPTY, LoneBlock(NO_TOKEN), META, []).Ok?
    ensures PopBlock(AddBlock(EMPTY, LoneBlock(NO_TOKEN), META, []).state)
            != Ok(EMPTY, (LoneBlock(NO_TOKEN), []))
  {
    assert NO_TOKEN.vin[0].Gen?;
    GensAccepted(NO_TOKEN);
    assert !HasToken(NO_TOKEN, 0);
    AcceptedByEmpty(NO_TOKEN);
  }

  lemma ScriptInputNotUndone()
    ensures AddBlock(EMPTY, LoneBlock(SCRIPT_INPUT), META, []).Ok?
    ensures PopBlock(AddBlock(EMPTY, LoneBlock(SCRIPT_INPUT), META, []).state)
            != Ok(EMPTY, (LoneBlock(SCRIPT_INPUT), []))
  {
    assert AddInputs(NO_TXS, SCRIPT_INPUT.vin, 0) == Ok(NO_TXS, true);
    assert AddInputs(NO_TXS, SCRIPT_INPUT.vin, 1).Ok?;
    assert !Supported(SCRIPT_INPUT.vin[0]);
    AcceptedByEmpty(SCRIPT_INPUT);
  }
}
