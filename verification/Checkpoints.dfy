/** Which checkpoint is final: the checkpoint table, the descending range query, and the rule
    that picks the immutable one. */
module Checkpoints {
  import opened Tables

  datatype Checkpoint = Checkpoint(height: nat, masterNode: bool)

  /** The table in key order. */
  ghost predicate Ordered(cps: seq<Checkpoint>) {
    forall i, j :: 0 <= i < j < |cps| ==> cps[i].height < cps[j].height
  }

  /** How many checkpoints lie at or below a height. */
  function CountUpTo(cps: seq<Checkpoint>, h: nat): (k: nat)
    ensures k <= |cps|
  {
    if cps == [] then 0
    else CountUpTo(cps[..|cps| - 1], h) + if cps[|cps| - 1].height <= h then 1 else 0
  }

  /** In key order those are the first ones. */
  lemma {:induction false} CountSplits(cps: seq<Checkpoint>, h: nat)
    requires Ordered(cps)
    ensures var k := CountUpTo(cps, h);
            && (forall i :: 0 <= i < k ==> cps[i].height <= h)
            && (forall i :: k <= i < |cps| ==> cps[i].height > h)
  {
    if cps != [] { CountSplits(cps[..|cps| - 1], h); }
  }

  lemma {:induction false} CountIs(cps: seq<Checkpoint>, h: nat, k: nat)
    requires Ordered(cps) && k <= |cps|
    requires (k > 0 ==> cps[k - 1].height <= h) && (k < |cps| ==> cps[k].height > h)
    ensures CountUpTo(cps, h) == k
  {
    CountSplits(cps, h);
  }

  /** How many checkpoints the range query can see: it never starts below the lowest one. */
  function Visible(cps: seq<Checkpoint>, h: nat): nat
    requires cps != []
  {
    if CountUpTo(cps, h) == 0 then 1 else CountUpTo(cps, h)
  }

  /** The two topmost visible checkpoints, or the one. */
  function TopTwo(cps: seq<Checkpoint>, h: nat): seq<Checkpoint> {
    if cps == [] then []
    else
      var k := Visible(cps, h);
      if k == 1 then [cps[0]] else [cps[k - 1], cps[k - 2]]
  }

  function IndexOf(cps: seq<Checkpoint>, h: nat): (r: Option<nat>)
    ensures r.Some? ==> r.value < |cps| && cps[r.value].height == h
    ensures r.None? ==> forall i :: 0 <= i < |cps| ==> cps[i].height != h
  {
    if cps == [] then None
    else if cps[|cps| - 1].height == h then Some(|cps| - 1) else IndexOf(cps[..|cps| - 1], h)
  }

  /** The range query from `from` down to height 0, for at most two checkpoints: clamps both ends
      to the table, steps down to the first checkpoint, then follows the table backwards. */
  method GetCheckpointsRange(cps: seq<Checkpoint>, from: nat) returns (r: seq<Checkpoint>)
    requires Ordered(cps)
    ensures r == TopTwo(cps, from)
  {
    r := [];
    if cps == [] { return; }
    var bottom, top := cps[0].height, cps[|cps| - 1].height;
    var start := if from < bottom then bottom else if from > top then top else from;
    var height := start;
    var first := IndexOf(cps, height);
    while height != bottom && first.None?
      invariant bottom <= height <= start && first == IndexOf(cps, height)
      invariant forall i :: 0 <= i < |cps| ==> !(height < cps[i].height <= start)
      decreases height
    {
      height := height - 1;
      first := IndexOf(cps, height);
    }
    assert cps[0].height == bottom;
    var k := first.value + 1;
    r := [cps[k - 1]];
    if start > bottom && k >= 2 {
      r := r + [cps[k - 2]];
    }
    FirstSeen(cps, from, start, k);
  }

  /** The checkpoint found first is the topmost visible one. */
  lemma FirstSeen(cps: seq<Checkpoint>, from: nat, start: nat, k: nat)
    requires Ordered(cps) && 0 < k <= |cps|
    requires start == if from < cps[0].height then cps[0].height
                      else if from > cps[|cps| - 1].height then cps[|cps| - 1].height else from
    requires cps[k - 1].height <= start && forall i :: 0 <= i < |cps| ==> !(cps[k - 1].height < cps[i].height <= start)
    ensures Visible(cps, from) == k
  {
    if from < cps[0].height {
      CountIs(cps, from, 0);
      assert k == 1;
    } else {
      assert k < |cps| ==> cps[k].height > start;
      CountIs(cps, from, k);
    }
  }

  /** The checkpoint that can no longer be replaced. */
  function Immutable(cps: seq<Checkpoint>, h: nat): Option<Checkpoint> {
    var two := TopTwo(cps, h);
    if two == [] then None
    else if !two[0].masterNode then Some(two[0])
    else if |two| == 2 then Some(two[1])
    else None
  }

  method GetImmutableCheckpoint(cps: seq<Checkpoint>, h: nat) returns (r: Option<Checkpoint>)
    requires Ordered(cps)
    ensures r == Immutable(cps, h)
  {
    var checkpoints := GetCheckpointsRange(cps, h);
    if |checkpoints| == 0 { return None; }
    if !checkpoints[0].masterNode { return Some(checkpoints[0]); }
    if |checkpoints| == 2 { return Some(checkpoints[1]); }
    r := None;
  }

  // ----- finality

  /** The height up to which the chain is final; -1 when it is not at all. */
  function FinalHeight(cps: seq<Checkpoint>, h: nat): int {
    var c := Immutable(cps, h);
    if c.Some? then c.value.height else -1
  }

  /** The final height when the first k checkpoints are visible. */
  function FinalOf(cps: seq<Checkpoint>, k: nat): int
    requires 0 < k <= |cps|
  {
    if !cps[k - 1].masterNode then cps[k - 1].height else if k >= 2 then cps[k - 2].height else -1
  }

  lemma FinalIs(cps: seq<Checkpoint>, h: nat)
    requires cps != []
    ensures FinalHeight(cps, h) == FinalOf(cps, Visible(cps, h))
  {
  }

  /** The final checkpoint is hard-coded, or a later master-node checkpoint confirms it. */
  lemma FinalIsConfirmed(cps: seq<Checkpoint>, h: nat)
    requires Ordered(cps) && Immutable(cps, h).Some?
    ensures var c := Immutable(cps, h).value;
            && c in cps
            && (c.masterNode ==> exists d :: d in cps && d.masterNode && c.height < d.height <= h)
  {
    CountSplits(cps, h);
    var k := Visible(cps, h);
    if k >= 2 {
      var d := cps[k - 1];
      assert d in cps && d.height <= h && cps[k - 2].height < d.height;
      assert Immutable(cps, h) == Some(if d.masterNode then cps[k - 2] else d);
    }
  }

  /** Hard-coded, or confirmed by a later master-node checkpoint up to the height. */
  ghost predicate Confirmed(cps: seq<Checkpoint>, h: nat, c: Checkpoint) {
    && c in cps && c.height <= h
    && (!c.masterNode || exists d :: d in cps && d.masterNode && c.height < d.height <= h)
  }

  lemma RankOf(cps: seq<Checkpoint>, h: nat, c: Checkpoint) returns (i: nat)
    requires Ordered(cps) && c in cps && c.height <= h
    ensures i < CountUpTo(cps, h) && cps[i] == c
  {
    CountSplits(cps, h);
    i :| 0 <= i < |cps| && cps[i] == c;
  }

  /** A confirmed checkpoint is not above the one before the topmost, unless that is hard-coded. */
  lemma {:induction false} ConfirmedIsBelow(cps: seq<Checkpoint>, h: nat, c: Checkpoint)
    requires Ordered(cps) && Confirmed(cps, h, c)
    ensures var k := CountUpTo(cps, h);
            k > 0 && c.height <= cps[k - 1].height
            && (cps[k - 1].masterNode ==> k >= 2 && c.height <= cps[k - 2].height)
  {
    var k := CountUpTo(cps, h);
    var i := RankOf(cps, h, c);
    if cps[k - 1].masterNode && i == k - 1 {
      var d :| d in cps && d.masterNode && c.height < d.height <= h;
      var j := RankOf(cps, h, d);
      assert false;
    }
  }

  /** From the lowest checkpoint on, the final one is the highest that is confirmed; below it, it is
      the lowest one if that is hard-coded. */
  lemma FinalIsHighestConfirmed(cps: seq<Checkpoint>, h: nat)
    requires Ordered(cps) && cps != []
    ensures h < cps[0].height ==> Immutable(cps, h) == if cps[0].masterNode then None else Some(cps[0])
    ensures h >= cps[0].height && Immutable(cps, h).None? ==> forall c :: !Confirmed(cps, h, c)
    ensures h >= cps[0].height && Immutable(cps, h).Some? ==>
              var f := Immutable(cps, h).value;
              Confirmed(cps, h, f) && forall c :: Confirmed(cps, h, c) ==> c.height <= f.height
  {
    CountSplits(cps, h);
    if h >= cps[0].height {
      forall c | Confirmed(cps, h, c)
        ensures Immutable(cps, h).Some? && c.height <= Immutable(cps, h).value.height
      {
        ConfirmedIsBelow(cps, h, c);
      }
      if Immutable(cps, h).Some? { FinalConfirmed(cps, h); }
    }
  }

  lemma FinalConfirmed(cps: seq<Checkpoint>, h: nat)
    requires Ordered(cps) && cps != [] && h >= cps[0].height && Immutable(cps, h).Some?
    ensures Confirmed(cps, h, Immutable(cps, h).value)
  {
    FinalIsConfirmed(cps, h);
    FinalBelowQueryExactly(cps, h);
  }

  /** It lies at or below the queried height exactly when the lowest checkpoint does. */
  lemma FinalBelowQueryExactly(cps: seq<Checkpoint>, h: nat)
    requires Ordered(cps) && Immutable(cps, h).Some?
    ensures cps != [] && (Immutable(cps, h).value.height <= h <==> cps[0].height <= h)
  {
    CountSplits(cps, h);
  }

  lemma {:induction false} CountGrows(cps: seq<Checkpoint>, h: nat, h': nat)
    requires h <= h'
    ensures CountUpTo(cps, h) <= CountUpTo(cps, h')
  {
    if cps != [] { CountGrows(cps[..|cps| - 1], h, h'); }
  }

  /** A higher query never lowers the final height. */
  lemma FinalGrowsWithHeight(cps: seq<Checkpoint>, h: nat, h': nat)
    requires Ordered(cps) && h <= h'
    ensures FinalHeight(cps, h) <= FinalHeight(cps, h')
  {
    if cps != [] {
      CountGrows(cps, h, h');
      var k, k' := Visible(cps, h), Visible(cps, h');
      if k < k' {
        assert FinalHeight(cps, h) <= cps[k - 1].height <= cps[k' - 2].height <= FinalHeight(cps, h') by {
          assert k - 1 <= k' - 2;
        }
      }
    }
  }

  /** The table with one more checkpoint. */
  function Insert(cps: seq<Checkpoint>, c: Checkpoint): seq<Checkpoint> {
    var p := CountUpTo(cps, c.height);
    cps[..p] + [c] + cps[p..]
  }

  lemma {:induction false} InsertOrdered(cps: seq<Checkpoint>, c: Checkpoint)
    requires Ordered(cps) && IndexOf(cps, c.height).None?
    ensures Ordered(Insert(cps, c))
  {
    CountSplits(cps, c.height);
  }

  lemma {:induction false} InsertCount(cps: seq<Checkpoint>, c: Checkpoint, h: nat)
    requires Ordered(cps) && IndexOf(cps, c.height).None?
    ensures CountUpTo(Insert(cps, c), h) == CountUpTo(cps, h) + if c.height <= h then 1 else 0
  {
    var p := CountUpTo(cps, c.height);
    var k := CountUpTo(cps, h);
    CountSplits(cps, c.height);
    CountSplits(cps, h);
    InsertOrdered(cps, c);
    var more := Insert(cps, c);
    if c.height <= h {
      CountGrows(cps, c.height, h);
      CountIs(more, h, k + 1);
    } else {
      CountGrows(cps, h, c.height);
      CountIs(more, h, k);
    }
  }

  /** A checkpoint at a new height lowers the final height in exactly one case: the query lies
      below the whole table, whose lowest checkpoint is hard-coded, and the new one goes below
      that. */
  lemma {:induction false} FinalGrowsWithCheckpointsExactly(cps: seq<Checkpoint>, c: Checkpoint, h: nat)
    requires Ordered(cps) && IndexOf(cps, c.height).None?
    ensures Ordered(Insert(cps, c))
    ensures FinalHeight(cps, h) <= FinalHeight(Insert(cps, c), h) <==>
            !(cps != [] && h < cps[0].height && c.height < cps[0].height && !cps[0].masterNode)
  {
    InsertOrdered(cps, c);
    if cps != [] {
      InsertCount(cps, c, h);
      CountSplits(cps, h);
      CountSplits(cps, c.height);
      if h < cps[0].height { InsertBelowTable(cps, c, h); } else { InsertInTable(cps, c, h); }
    }
  }

  /** One hard-coded checkpoint at 10, a query at 3: the answer lies above the query, and a
      master-node checkpoint at 5 takes it away. */
  lemma FinalityLost()
    ensures var cps := [Checkpoint(10, false)];
            && FinalHeight(cps, 3) == 10 && FinalHeight(Insert(cps, Checkpoint(5, true)), 3) == -1
  {
    var cps := [Checkpoint(10, false)];
    var more := [Checkpoint(5, true), Checkpoint(10, false)];
    assert cps[..0] == [] && more[..1] == [Checkpoint(5, true)] && more[..1][..0] == [];
    assert CountUpTo(cps, 5) == 0 && CountUpTo(cps, 3) == 0;
    assert Insert(cps, Checkpoint(5, true)) == more;
    assert CountUpTo(more[..1], 3) == 0 && CountUpTo(more, 3) == 0;
  }

  lemma {:induction false} InsertBelowTable(cps: seq<Checkpoint>, c: Checkpoint, h: nat)
    requires Ordered(cps) && IndexOf(cps, c.height).None? && cps != [] && h < cps[0].height
    ensures FinalHeight(cps, h) <= FinalHeight(Insert(cps, c), h) <==>
            !(c.height < cps[0].height && !cps[0].masterNode)
  {
    InsertCount(cps, c, h);
    CountSplits(cps, h);
    CountSplits(cps, c.height);
    var more := Insert(cps, c);
    assert Visible(cps, h) == 1 && Visible(more, h) == 1;
    assert more[0] == if c.height < cps[0].height then c else cps[0];
  }

  lemma {:induction false} InsertInTable(cps: seq<Checkpoint>, c: Checkpoint, h: nat)
    requires Ordered(cps) && IndexOf(cps, c.height).None? && cps != [] && h >= cps[0].height
    ensures FinalHeight(cps, h) <= FinalHeight(Insert(cps, c), h)
  {
    InsertCount(cps, c, h);
    CountSplits(cps, h);
    FinalIs(cps, h);
    FinalIs(Insert(cps, c), h);
    if c.height <= h {
      CountGrows(cps, c.height, h);
      CountSplits(cps, c.height);
      FinalWithOneMore(cps, c, CountUpTo(cps, c.height), CountUpTo(cps, h));
    } else {
      CountGrows(cps, h, c.height);
      FinalWithOneBeyond(cps, c, CountUpTo(cps, c.height), CountUpTo(cps, h));
    }
  }

  lemma FinalWithOneBeyond(cps: seq<Checkpoint>, c: Checkpoint, p: nat, k: nat)
    requires 0 < k <= p <= |cps|
    ensures FinalOf(cps, k) == FinalOf(cps[..p] + [c] + cps[p..], k)
  {
  }

  /** One more checkpoint c, at position p, among the first k. */
  lemma FinalWithOneMore(cps: seq<Checkpoint>, c: Checkpoint, p: nat, k: nat)
    requires Ordered(cps) && p <= k <= |cps| && k > 0
    requires p > 0 ==> cps[p - 1].height < c.height
    ensures FinalOf(cps, k) <= FinalOf(cps[..p] + [c] + cps[p..], k + 1)
  {
    var more := cps[..p] + [c] + cps[p..];
    if p == k {
      assert more[k] == c && more[k - 1] == cps[k - 1];
    } else if p == k - 1 {
      assert more[k] == cps[k - 1] && more[k - 1] == c;
    } else {
      assert more[k] == cps[k - 1] && more[k - 1] == cps[k - 2];
    }
  }
}
