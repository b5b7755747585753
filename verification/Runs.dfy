/** Every run of additions and pops in write batches, and the block tables over it. */
module Runs {
  import opened Tables
  import opened Ledger
  import opened Rounds
  import opened Store
  import opened BlockOps

  datatype Entry = Entry(blk: Block, meta: BlockMeta, txs: seq<Transaction>)

  /** An operation on the store, or the end of the write batch it belongs to. */
  datatype Step = Add(entry: Entry) | Pop | Commit | Abort

  /** A store together with the blocks that were added and not popped again. */
  datatype State = State(store: Store, chain: seq<Entry>)

  /** What the batch has come to, and what is stored should it be given up. */
  datatype World = World(now: State, saved: State)

  const START: State := State(EMPTY, [])

  /** One operation, if it does not throw. */
  function Try(s: State, step: Step): Option<State> {
    match step
    case Add(e) =>
      var r := AddBlock(s.store, e.blk, e.meta, e.txs);
      if r.Ok? then Some(State(r.state, s.chain + [e])) else None
    case Pop =>
      var r := PopBlock(s.store);
      if r.Ok? then Some(State(r.state, if s.chain == [] then [] else s.chain[..|s.chain| - 1])) else None
    case _ => Some(s)
  }

  /** A throw dooms the whole batch. */
  function Do(w: World, step: Step): World {
    var r := Try(w.now, step);
    if step.Abort? || r.None? then World(w.saved, w.saved)
    else if step.Commit? then World(w.now, w.now)
    else w.(now := r.value)
  }

  function Run(steps: seq<Step>): World {
    if steps == [] then World(START, START) else Do(Run(steps[..|steps| - 1]), steps[|steps| - 1])
  }

  ghost predicate KeptBy(P: State -> bool, step: Step, s: State) {
    P(s) && Try(s, step).Some? ==> P(Try(s, step).value)
  }

  /** What every operation that goes through keeps, holds after every run, of the batch and of
      what is stored. */
  lemma {:induction false} RunKeeps(P: State -> bool, steps: seq<Step>)
    requires P(START) && forall i, s :: 0 <= i < |steps| ==> KeptBy(P, steps[i], s)
    ensures P(Run(steps).now) && P(Run(steps).saved)
  {
    if steps != [] {
      var before := steps[..|steps| - 1];
      forall i, s | 0 <= i < |before| ensures KeptBy(P, before[i], s) {
        assert KeptBy(P, steps[i], s);
      }
      RunKeeps(P, before);
      assert KeptBy(P, steps[|steps| - 1], Run(before).now);
    }
  }

  /** From step n on there are only additions and pops, all of them in one batch. */
  predicate OneBatch(steps: seq<Step>, n: nat) {
    n <= |steps| && forall i :: n <= i < |steps| ==> steps[i].Add? || steps[i].Pop?
  }

  lemma StepKeepsSaved(w: World, step: Step)
    requires step.Add? || step.Pop?
    ensures Do(w, step).saved == w.saved
  {
  }

  /** Nothing that is done in a batch is stored before its end. */
  lemma {:induction false} BatchKeepsSaved(steps: seq<Step>, n: nat)
    requires OneBatch(steps, n)
    ensures Run(steps).saved == Run(steps[..n]).saved
  {
    if n == |steps| {
      assert steps[..n] == steps;
    } else {
      var m := |steps| - 1;
      BatchKeepsSaved(steps[..m], n);
      assert steps[..m][..n] == steps[..n];
      StepKeepsSaved(Run(steps[..m]), steps[m]);
    }
  }

  /** How a batch that began after step n goes on and ends: an operation that goes through adds to it;
      a commit stores what it has come to; an abort, or an operation that throws, leaves what was
      stored before the batch, whatever was done in it. */
  lemma {:induction false} BatchEnds(steps: seq<Step>, n: nat, last: Step)
    requires OneBatch(steps, n)
    ensures var now, before, w := Run(steps).now, Run(steps[..n]).saved, Run(steps + [last]);
            match last
            case Commit => w == World(now, now)
            case Abort => w == World(before, before)
            case _ => w == if Try(now, last).None? then World(before, before) else World(Try(now, last).value, before)
  {
    BatchKeepsSaved(steps, n);
    assert (steps + [last])[..|steps|] == steps;
  }

  /** P holds after every part of the run. */
  ghost predicate Along(P: State -> bool, steps: seq<Step>) {
    P(Run(steps).now) && (steps == [] || Along(P, steps[..|steps| - 1]))
  }

  /** No step of the run is a bad one where it is made. */
  ghost predicate Never(bad: (State, Step) -> bool, steps: seq<Step>) {
    steps == [] ||
    (Never(bad, steps[..|steps| - 1]) && !bad(Run(steps[..|steps| - 1]).now, steps[|steps| - 1]))
  }

  /** An operation that goes through keeps P exactly if it is not a bad one; one that throws is none. */
  ghost predicate ExactAt(P: State -> bool, bad: (State, Step) -> bool, s: State, step: Step) {
    && (P(s) && Try(s, step).Some? ==> (P(Try(s, step).value) <==> !bad(s, step)))
    && (Try(s, step).None? ==> !bad(s, step))
  }

  /** P holds all along a run if and only if no step of it is a bad one; then it also holds of what
      is stored. */
  lemma {:induction false} RunExactly(P: State -> bool, bad: (State, Step) -> bool, steps: seq<Step>)
    requires P(START) && forall i, s :: 0 <= i < |steps| ==> ExactAt(P, bad, s, steps[i])
    ensures Along(P, steps) <==> Never(bad, steps)
    ensures Never(bad, steps) ==> P(Run(steps).now) && P(Run(steps).saved)
  {
    if steps != [] {
      var before, last := steps[..|steps| - 1], steps[|steps| - 1];
      forall i, s | 0 <= i < |before| ensures ExactAt(P, bad, s, before[i]) {
        assert ExactAt(P, bad, s, steps[i]);
      }
      RunExactly(P, bad, before);
      assert ExactAt(P, bad, Run(before).now, last);
    }
  }

  /** The store that results from adding the blocks of a chain, never popping anything. */
  function Replay(chain: seq<Entry>): Store {
    if chain == [] then EMPTY
    else
      var e := chain[|chain| - 1];
      AddBlock(Replay(chain[..|chain| - 1]), e.blk, e.meta, e.txs).state
  }

  /** Each block of the chain was accepted by the store built from those below it. */
  ghost predicate Accepted(chain: seq<Entry>) {
    chain == [] ||
    (var e := chain[|chain| - 1];
     && Accepted(chain[..|chain| - 1])
     && AddBlock(Replay(chain[..|chain| - 1]), e.blk, e.meta, e.txs).Ok?)
  }

  // ----- the block tables

  /** Row i is block i with its metadata, the height index maps the ids to the rows and nothing
      else, and each block names the one below it as its parent. */
  ghost predicate BlocksHold(blocks: seq<BlockRow>, heights: map<Hash, nat>, chain: seq<Entry>) {
    && |blocks| == |chain|
    && (forall i :: 0 <= i < |chain| ==>
          && blocks[i].blk == chain[i].blk && blocks[i].meta == chain[i].meta
          && chain[i].blk.id in heights && heights[chain[i].blk.id] == i)
    && (forall h :: h in heights ==> heights[h] < |chain| && chain[heights[h]].blk.id == h)
    && (forall i :: 0 < i < |chain| ==> chain[i].blk.prevId == chain[i - 1].blk.id)
  }

  lemma RowAdded(blocks: seq<BlockRow>, heights: map<Hash, nat>, chain: seq<Entry>, e: Entry, cumRct: nat)
    requires BlocksHold(blocks, heights, chain) && e.blk.id !in heights
    requires blocks != [] ==> e.blk.prevId in heights && heights[e.blk.prevId] == |blocks| - 1
    ensures BlocksHold(blocks + [BlockRow(e.blk, e.meta, cumRct)], heights[e.blk.id := |blocks|], chain + [e])
  {
  }

  lemma RowRemoved(blocks: seq<BlockRow>, heights: map<Hash, nat>, chain: seq<Entry>)
    requires BlocksHold(blocks, heights, chain) && blocks != []
    ensures var n := |blocks| - 1;
            blocks[n].blk == chain[n].blk && BlocksHold(blocks[..n], heights - {blocks[n].blk.id}, chain[..n])
  {
  }

  ghost predicate Blocks(s: State) { BlocksHold(s.store.blocks, s.store.blockHeights, s.chain) }

  lemma BlockAdded(s: State, e: Entry)
    requires Blocks(s) && Try(s, Add(e)).Some?
    ensures Blocks(Try(s, Add(e)).value)
  {
    RowAdded(s.store.blocks, s.store.blockHeights, s.chain, e, NumRctOuts(e.blk, e.txs) + LastCumRct(s.store));
  }

  /** What a pop that goes through consists of. */
  lemma PopParts(s: Store)
    requires PopBlock(s).Ok?
    ensures RemoveBlock(s).Ok? && s.blocks != []
    ensures var blk := s.blocks[|s.blocks| - 1].blk;
            var p := PopTxs(s.core, blk.txHashes);
            && p.Ok? && PopTx(p.state, blk.minerTx.hash).Ok?
            && PopBlock(s) == Ok(RemoveBlock(s).state.(core := PopTx(p.state, blk.minerTx.hash).state), (blk, p.value))
  {
  }

  lemma BlockPopped(s: State)
    requires Blocks(s) && Try(s, Pop).Some?
    ensures s.chain != [] && PopBlock(s.store).value.0 == s.chain[|s.chain| - 1].blk
    ensures Blocks(Try(s, Pop).value)
  {
    PopParts(s.store);
    RowRemoved(s.store.blocks, s.store.blockHeights, s.chain);
  }

  /** Over every run of any blocks the block tables hold exactly the surviving blocks, linked by
      their parents. */
  lemma {:induction false} RunBlocks(steps: seq<Step>)
    ensures Blocks(Run(steps).now) && Blocks(Run(steps).saved)
  {
    forall i, s | 0 <= i < |steps| ensures KeptBy(Blocks, steps[i], s) {
      if Blocks(s) && Try(s, steps[i]).Some? {
        match steps[i]
        case Add(e) => BlockAdded(s, e);
        case Pop => BlockPopped(s);
        case _ =>
      }
    }
    RunKeeps(Blocks, steps);
  }
}
