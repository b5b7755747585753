/** The sliding window of timestamps and cumulative difficulties, kept between calls. */
module Difficulty {
  import opened Tables

  const DIFFICULTY_WINDOW: nat := 59

  function DifficultyBlocksCount(beforeFork: bool): nat {
    if beforeFork then DIFFICULTY_WINDOW + 2 else DIFFICULTY_WINDOW + 1
  }

  /** `fork` is the height at which hf17 starts, if the network has it. */
  function BlockCount(fork: Option<nat>, height: nat): nat {
    DifficultyBlocksCount(fork.None? || height < fork.value)
  }

  /** The first height of the window of a chain with H blocks; genesis is never in it. */
  function Start(fork: Option<nat>, H: nat): nat {
    var count := BlockCount(fork, H);
    if H <= count + 1 then 1 else H - count
  }

  /** What the window of a chain with H blocks holds, `xs` being the value at each height. */
  function Window(xs: seq<nat>, fork: Option<nat>, H: nat): seq<nat>
    requires H <= |xs|
  {
    if H < 2 then [] else xs[Start(fork, H)..H]
  }

  /** The window holds the last 61 values below the fork and the last 60 from it on, or all of them
      but that of genesis. */
  lemma WindowIs(xs: seq<nat>, fork: Option<nat>, H: nat)
    requires 1 <= H <= |xs|
    ensures var most := if fork.None? || H < fork.value then 61 else 60;
            var w := Window(xs, fork, H);
            && |w| == (if H - 1 < most then H - 1 else most)
            && forall k :: 0 <= k < |w| ==> w[k] == xs[H - |w| + k]
  {
  }

  function Last(v: seq<nat>, n: nat): seq<nat> {
    if |v| <= n then v else v[|v| - n..]
  }

  lemma SliceAppend(xs: seq<nat>, a: nat, b: nat)
    requires a <= b < |xs|
    ensures xs[a..b] + [xs[b]] == xs[a..b + 1]
  {
  }

  lemma LastSlice(xs: seq<nat>, a: nat, b: nat, n: nat)
    requires a <= b <= |xs|
    ensures Last(xs[a..b], n) == xs[if b - a <= n then a else b - n..b]
  {
  }

  /** When the cached vectors are thrown away. */
  predicate Rebuilds(fork: Option<nat>, nTimes: nat, nDiffs: nat, H: nat, cachedHeight: nat) {
    cachedHeight == 0 || H != cachedHeight + 1 || nTimes > BlockCount(fork, H) || nDiffs > BlockCount(fork, H)
  }

  /** One vector after a call that kept the cache. */
  function Extended(v: seq<nat>, xs: seq<nat>, fork: Option<nat>, H: nat): seq<nat>
    requires 2 <= H <= |xs|
  {
    Last(v + [xs[H - 1]], BlockCount(fork, H))
  }

  /** Appends to both vectors and drops the oldest entries beyond the block count. */
  method AddTimestampAndDifficulty(fork: Option<nat>, H: nat, ts0: seq<nat>, ds0: seq<nat>, t: nat, d: nat)
    returns (ts: seq<nat>, ds: seq<nat>)
    ensures ts == Last(ts0 + [t], BlockCount(fork, H))
    ensures ds == Last(ds0 + [d], BlockCount(fork, H))
  {
    ts, ds := ts0 + [t], ds0 + [d];
    var count := BlockCount(fork, H);
    while |ts| > count
      invariant Last(ts, count) == Last(ts0 + [t], count)
    {
      ts := ts[1..];
    }
    while |ds| > count
      invariant Last(ds, count) == Last(ds0 + [d], count)
    {
      ds := ds[1..];
    }
  }

  /** Where a rebuild starts to read. */
  function RebuildStart(fork: Option<nat>, H: nat): nat {
    if H <= BlockCount(fork, H) then 1 else H - BlockCount(fork, H)
  }

  /** Everything there is to read from a height on. */
  function ReadFrom(xs: seq<nat>, start: nat): seq<nat> {
    if start <= |xs| then xs[start..] else []
  }

  /** What a rebuild reads before the last block, and that block, make up the window. */
  lemma RebuiltIsWindow(xs: seq<nat>, fork: Option<nat>, H: nat)
    requires 2 <= H <= |xs|
    ensures Last(xs[RebuildStart(fork, H)..H - 1] + [xs[H - 1]], BlockCount(fork, H)) == Window(xs, fork, H)
  {
    SliceAppend(xs, RebuildStart(fork, H), H - 1);
    LastSlice(xs, RebuildStart(fork, H), H, BlockCount(fork, H));
  }

  /** The call: on a chain of fewer than two blocks nothing happens; a missing block throws, after
      the blocks below it were read. */
  method FillTimestampsAndDifficulties(fork: Option<nat>, times: seq<nat>, diffs: seq<nat>,
                                       ts0: seq<nat>, ds0: seq<nat>, H: nat, cachedHeight: nat)
    returns (threw: bool, ts: seq<nat>, ds: seq<nat>)
    requires |times| == |diffs|
    ensures threw <==> H >= 2 && H > |times|
    ensures H < 2 ==> ts == ts0 && ds == ds0
    ensures !threw && H >= 2 && Rebuilds(fork, |ts0|, |ds0|, H, cachedHeight) ==>
              ts == Window(times, fork, H) && ds == Window(diffs, fork, H)
    ensures !threw && H >= 2 && !Rebuilds(fork, |ts0|, |ds0|, H, cachedHeight) ==>
              ts == Extended(ts0, times, fork, H) && ds == Extended(ds0, diffs, fork, H)
    ensures threw && Rebuilds(fork, |ts0|, |ds0|, H, cachedHeight) ==>
              ts == ReadFrom(times, RebuildStart(fork, H)) && ds == ReadFrom(diffs, RebuildStart(fork, H))
    ensures threw && !Rebuilds(fork, |ts0|, |ds0|, H, cachedHeight) ==> ts == ts0 && ds == ds0
  {
    ts, ds := ts0, ds0;
    if H < 2 { return false, ts, ds; }
    var count := BlockCount(fork, H);
    if cachedHeight == 0 || H != cachedHeight + 1 || |ts| > count || |ds| > count {
      threw, ts, ds := Rebuild(fork, times, diffs, H);
      if threw { return; }
    }
    if H > |times| { return true, ts, ds; }
    ts, ds := AddTimestampAndDifficulty(fork, H, ts, ds, times[H - 1], diffs[H - 1]);
    threw := false;
  }

  /** Clears the vectors and fills them up to one before the top block. */
  method Rebuild(fork: Option<nat>, times: seq<nat>, diffs: seq<nat>, H: nat)
    returns (threw: bool, ts: seq<nat>, ds: seq<nat>)
    requires |times| == |diffs| && H >= 2
    ensures threw ==> H > |times|
    ensures H > |times| ==> ts == ReadFrom(times, RebuildStart(fork, H)) && ds == ReadFrom(diffs, RebuildStart(fork, H))
    ensures H <= |times| ==>
              && Last(ts + [times[H - 1]], BlockCount(fork, H)) == Window(times, fork, H)
              && Last(ds + [diffs[H - 1]], BlockCount(fork, H)) == Window(diffs, fork, H)
  {
    var count := BlockCount(fork, H);
    var start := H - (if H < count then H else count);
    if start < 1 { start := 1; }
    threw, ts, ds := ReadBlocks(times, diffs, start, H - 1);
    if H <= |times| {
      RebuiltIsWindow(times, fork, H);
      RebuiltIsWindow(diffs, fork, H);
    }
  }

  /** The values at heights start up to, not including, end, or as many as there are. */
  method ReadBlocks(times: seq<nat>, diffs: seq<nat>, start: nat, end: nat)
    returns (threw: bool, ts: seq<nat>, ds: seq<nat>)
    requires |times| == |diffs| && start <= end
    ensures threw <==> start < end && end > |times|
    ensures !threw && end <= |times| ==> ts == times[start..end] && ds == diffs[start..end]
    ensures end >= |times| ==> ts == ReadFrom(times, start) && ds == ReadFrom(diffs, start)
  {
    ts, ds := [], [];
    for h := start to end
      invariant h == start || h <= |times|
      invariant h == start ==> ts == [] && ds == []
      invariant h <= |times| ==> ts == times[start..h] && ds == diffs[start..h]
    {
      if h >= |times| { return true, ts, ds; }
      SliceAppend(times, start, h);
      SliceAppend(diffs, start, h);
      ts, ds := ts + [times[h]], ds + [diffs[h]];
    }
    threw := false;
  }

  // ----- the cached path against the rebuild

  /** Where the window of H - 1 blocks starts. */
  function StartBefore(fork: Option<nat>, H: nat): (first: nat)
    requires H >= 2
    ensures 1 <= first <= H - 1
  {
    if H == 2 then 1 else Start(fork, H - 1)
  }

  lemma StartMoves(fork: Option<nat>, H: nat)
    requires H >= 2 && H - 1 - StartBefore(fork, H) <= BlockCount(fork, H)
    ensures var first, n := StartBefore(fork, H), BlockCount(fork, H);
            Start(fork, H) == if H - first <= n then first else H - n
  {
  }

  lemma WindowBefore(xs: seq<nat>, fork: Option<nat>, H: nat)
    requires 2 <= H <= |xs|
    ensures Window(xs, fork, H - 1) == xs[StartBefore(fork, H)..H - 1]
  {
  }

  /** From the window of H - 1 blocks the cached path yields the window of H blocks, also where
      the fork shortens it. */
  lemma CachedIsWindow(xs: seq<nat>, fork: Option<nat>, H: nat)
    requires 2 <= H <= |xs| && |Window(xs, fork, H - 1)| <= BlockCount(fork, H)
    ensures Extended(Window(xs, fork, H - 1), xs, fork, H) == Window(xs, fork, H)
  {
    WindowBefore(xs, fork, H);
    StartMoves(fork, H);
    SliceAppend(xs, StartBefore(fork, H), H - 1);
    LastSlice(xs, StartBefore(fork, H), H, BlockCount(fork, H));
  }

  // ----- the cache over a life of the chain

  /** The chain's values by height, and the cached vectors with the height they are for. */
  datatype Cache = Cache(times: seq<nat>, diffs: seq<nat>, height: nat)
  datatype Life = Life(times: seq<nat>, diffs: seq<nat>, cache: Cache)
  datatype Event = Push(time: nat, diff: nat) | Pop | Query

  function Filled(v: seq<nat>, xs: seq<nat>, fork: Option<nat>, rebuilds: bool): seq<nat> {
    if |xs| < 2 then v else if rebuilds then Window(xs, fork, |xs|) else Extended(v, xs, fork, |xs|)
  }

  /** A pop resets the cached height; a query fills the cache and records the height. */
  function Next(fork: Option<nat>, l: Life, e: Event): Life
    requires |l.times| == |l.diffs|
  {
    match e
    case Push(t, d) => l.(times := l.times + [t], diffs := l.diffs + [d])
    case Pop =>
      if |l.times| <= 1 then l.(cache := l.cache.(height := 0))
      else Life(l.times[..|l.times| - 1], l.diffs[..|l.diffs| - 1], l.cache.(height := 0))
    case Query =>
      var r := Rebuilds(fork, |l.cache.times|, |l.cache.diffs|, |l.times|, l.cache.height);
      l.(cache := Cache(Filled(l.cache.times, l.times, fork, r), Filled(l.cache.diffs, l.diffs, fork, r), |l.times|))
  }

  /** From a recorded height of two on, the vectors are the windows for it. */
  ghost predicate Sound(fork: Option<nat>, l: Life) {
    && |l.times| == |l.diffs| && |l.cache.times| == |l.cache.diffs| && l.cache.height <= |l.times|
    && (l.cache.height >= 2 ==>
          && l.cache.times == Window(l.times, fork, l.cache.height)
          && l.cache.diffs == Window(l.diffs, fork, l.cache.height))
  }

  /** What a query has to answer. */
  ghost predicate Answers(fork: Option<nat>, l: Life) {
    && |l.times| == |l.diffs|
    && l.cache.times == Window(l.times, fork, |l.times|)
    && l.cache.diffs == Window(l.diffs, fork, |l.diffs|)
  }

  /** The second block is there, the last query was on the first alone, and that query left vectors
      of a longer chain in place which are short enough to be kept. */
  predicate Misled(fork: Option<nat>, l: Life, e: Event) {
    e.Query? && |l.times| == 2 && l.cache.height == 1 && 0 < |l.cache.times| <= BlockCount(fork, 2)
  }

  lemma ExtendedShort(v: seq<nat>, xs: seq<nat>, fork: Option<nat>)
    requires |xs| == 2
    ensures Extended(v, xs, fork, 2) == Window(xs, fork, 2) <==> v == []
  {
    assert Window(xs, fork, 2) == [xs[1]];
    if v != [] { assert |Extended(v, xs, fork, 2)| >= 2; }
  }

  /** A query on two or more blocks answers right if and only if it is not misled. */
  lemma QueryExactly(fork: Option<nat>, l: Life)
    requires Sound(fork, l) && |l.times| >= 2
    ensures Answers(fork, Next(fork, l, Query)) <==> !Misled(fork, l, Query)
  {
    var H := |l.times|;
    if !Rebuilds(fork, |l.cache.times|, |l.cache.diffs|, H, l.cache.height) {
      if H == 2 {
        ExtendedShort(l.cache.times, l.times, fork);
        ExtendedShort(l.cache.diffs, l.diffs, fork);
      } else {
        CachedIsWindow(l.times, fork, H);
        CachedIsWindow(l.diffs, fork, H);
      }
    }
  }

  lemma WindowKept(xs: seq<nat>, x: nat, fork: Option<nat>, H: nat)
    requires H <= |xs|
    ensures Window(xs + [x], fork, H) == Window(xs, fork, H)
  {
    if H >= 2 { assert (xs + [x])[Start(fork, H)..H] == xs[Start(fork, H)..H]; }
  }

  /** Every event but a misled query keeps the cache sound. */
  lemma SoundExactly(fork: Option<nat>, l: Life, e: Event)
    requires Sound(fork, l)
    ensures Sound(fork, Next(fork, l, e)) <==> !Misled(fork, l, e)
  {
    match e
    case Push(t, d) =>
      if l.cache.height >= 2 {
        WindowKept(l.times, t, fork, l.cache.height);
        WindowKept(l.diffs, d, fork, l.cache.height);
      }
    case Pop =>
    case Query =>
      if |l.times| >= 2 { QueryExactly(fork, l); }
  }

  function Lived(fork: Option<nat>, events: seq<Event>): (l: Life)
    ensures |l.times| == |l.diffs|
  {
    if events == [] then Life([], [], Cache([], [], 0))
    else Next(fork, Lived(fork, events[..|events| - 1]), events[|events| - 1])
  }

  /** Every query of the life on two or more blocks is answered right. */
  ghost predicate AllRight(fork: Option<nat>, events: seq<Event>) {
    events == [] ||
    (var before, last := events[..|events| - 1], events[|events| - 1];
     && AllRight(fork, before)
     && (last.Query? && |Lived(fork, before).times| >= 2 ==> Answers(fork, Next(fork, Lived(fork, before), last))))
  }

  ghost predicate NoneMisled(fork: Option<nat>, events: seq<Event>) {
    events == [] ||
    (var before, last := events[..|events| - 1], events[|events| - 1];
     NoneMisled(fork, before) && !Misled(fork, Lived(fork, before), last))
  }

  /** Over every life: all queries on two or more blocks are answered right if and only if none of
      them is misled. */
  lemma {:induction false} LifeExactly(fork: Option<nat>, events: seq<Event>)
    ensures AllRight(fork, events) <==> NoneMisled(fork, events)
    ensures NoneMisled(fork, events) ==> Sound(fork, Lived(fork, events))
  {
    if events != [] {
      var before, last := events[..|events| - 1], events[|events| - 1];
      LifeExactly(fork, before);
      var l := Lived(fork, before);
      if NoneMisled(fork, before) {
        SoundExactly(fork, l, last);
        if last.Query? && |l.times| >= 2 { QueryExactly(fork, l); }
      }
    }
  }

  lemma {:induction false} LivedNext(fork: Option<nat>, events: seq<Event>, e: Event)
    ensures Lived(fork, events + [e]) == Next(fork, Lived(fork, events), e)
  {
    assert (events + [e])[..|events|] == events;
  }

  lemma QueryTwoBlocks(fork: Option<nat>)
    ensures Next(fork, Life([1, 2], [1, 2], Cache([], [], 0)), Query) == Life([1, 2], [1, 2], Cache([2], [2], 2))
  {
    assert Window([1, 2], fork, 2) == [1, 2][1..2] == [2];
  }

  lemma {:induction false} TwoBlocks(fork: Option<nat>)
    ensures Lived(fork, [Push(1, 1)] + [Push(2, 2)]) == Life([1, 2], [1, 2], Cache([], [], 0))
  {
    LivedNext(fork, [], Push(1, 1));
    assert [] + [Push(1, 1)] == [Push(1, 1)];
    LivedNext(fork, [Push(1, 1)], Push(2, 2));
  }

  lemma {:induction false} QueriedAndPopped(fork: Option<nat>, events: seq<Event>)
    requires Lived(fork, events) == Life([1, 2], [1, 2], Cache([], [], 0))
    ensures Lived(fork, events + [Query] + [Pop]) == Life([1], [1], Cache([2], [2], 0))
  {
    LivedNext(fork, events, Query);
    QueryTwoBlocks(fork);
    LivedNext(fork, events + [Query], Pop);
    assert [1, 2][..1] == [1];
  }

  lemma {:induction false} WrongAnswer(fork: Option<nat>, events: seq<Event>)
    requires Lived(fork, events) == Life([1], [1], Cache([2], [2], 0))
    ensures !Answers(fork, Lived(fork, events + [Query] + [Push(3, 3)] + [Query]))
  {
    LivedNext(fork, events, Query);
    LivedNext(fork, events + [Query], Push(3, 3));
    LivedNext(fork, events + [Query] + [Push(3, 3)], Query);
    QueryExactly(fork, Lived(fork, events + [Query] + [Push(3, 3)]));
  }

  /** A life that comes to this: two blocks, a query, a pop, a query, a block, a query. */
  lemma {:induction false} LeftoverReached(fork: Option<nat>)
    ensures var popped := [Push(1, 1)] + [Push(2, 2)] + [Query] + [Pop];
            !Answers(fork, Lived(fork, popped + [Query] + [Push(3, 3)] + [Query]))
  {
    var two := [Push(1, 1)] + [Push(2, 2)];
    TwoBlocks(fork);
    QueriedAndPopped(fork, two);
    WrongAnswer(fork, two + [Query] + [Pop]);
  }
}
