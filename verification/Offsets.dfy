/** Ring offsets: relative ones, as transactions carry them, and absolute output indices, in 64-bit
    arithmetic. */
module Offsets {
  import opened Tables
  import opened Ledger

  function Sum(s: seq<nat>): nat {
    if s == [] then 0 else Sum(s[..|s| - 1]) + s[|s| - 1]
  }

  /** 64-bit addition and subtraction, which wrap around. */
  function Plus(a: Word, b: Word): Word { if a + b < TWO_64 then a + b else a + b - TWO_64 }

  function Minus(a: Word, b: Word): Word { if a >= b then a - b else a + TWO_64 - b }

  /** Each entry becomes what all up to it make together. */
  function Scan<T>(s: seq<T>, f: (T, T) -> T): (r: seq<T>)
    ensures |r| == |s|
  {
    if |s| <= 1 then s
    else
      var init := Scan(s[..|s| - 1], f);
      init + [f(init[|init| - 1], s[|s| - 1])]
  }

  /** Each entry becomes its difference to the one before it. */
  function Unscan<T>(s: seq<T>, g: (T, T) -> T): (r: seq<T>)
    ensures |r| == |s|
  {
    if |s| <= 1 then s else Unscan(s[..|s| - 1], g) + [g(s[|s| - 1], s[|s| - 2])]
  }

  lemma {:induction false} UnscanScan<T(!new)>(s: seq<T>, f: (T, T) -> T, g: (T, T) -> T)
    requires forall a, b :: g(f(a, b), a) == b
    ensures Unscan(Scan(s, f), g) == s
  {
    if |s| > 1 {
      var n := |s| - 1;
      UnscanScan(s[..n], f, g);
      assert Scan(s, f)[..n] == Scan(s[..n], f);
      assert s[..n] + [s[n]] == s;
    }
  }

  lemma {:induction false} ScanUnscan<T(!new)>(s: seq<T>, f: (T, T) -> T, g: (T, T) -> T)
    requires forall a, b :: f(a, g(b, a)) == b
    ensures Scan(Unscan(s, g), f) == s
  {
    if |s| > 1 {
      var n := |s| - 1;
      ScanUnscan(s[..n], f, g);
      assert Unscan(s, g)[..n] == Unscan(s[..n], g);
      assert s[..n] + [s[n]] == s;
    }
  }

  /** What ring members are at, given the offsets in the transaction. */
  function AbsoluteOffsets(rel: seq<Word>): (abs: seq<Word>)
    ensures |abs| == |rel|
  {
    Scan(rel, Plus)
  }

  /** Each index less the one before it. */
  function RelativeOffsets(abs: seq<Word>): (rel: seq<Word>)
    ensures |rel| == |abs|
  {
    Unscan(abs, Minus)
  }

  ghost predicate Ascending(s: seq<nat>) {
    forall i, j :: 0 <= i < j < |s| ==> s[i] <= s[j]
  }

  lemma PlusReduces(a: nat, w: Word, b: Word)
    requires w == a % TWO_64
    ensures Plus(w, b) == (a + b) % TWO_64
  {
  }

  /** An absolute offset is the sum of the relative ones up to it, modulo 2^64. */
  lemma {:induction false} AbsoluteIsSum(rel: seq<Word>, k: nat)
    requires k < |rel|
    ensures AbsoluteOffsets(rel)[k] == Sum(rel[..k + 1]) % TWO_64
  {
    var n := |rel| - 1;
    if n == 0 {
      assert rel[..1] == rel && Sum(rel[..0]) == 0;
    } else if k < n {
      AbsoluteIsSum(rel[..n], k);
      assert rel[..n][..k + 1] == rel[..k + 1];
    } else {
      AbsoluteIsSum(rel[..n], n - 1);
      assert rel[..n][..n] == rel[..n] && rel[..k + 1] == rel;
      PlusReduces(Sum(rel[..n]), AbsoluteOffsets(rel[..n])[n - 1], rel[n]);
    }
  }

  /** Both conversions undo each other, wrapped or not. */
  lemma {:induction false} RelativeOfAbsolute(rel: seq<Word>)
    ensures RelativeOffsets(AbsoluteOffsets(rel)) == rel
  {
    forall a: Word, b: Word ensures Minus(Plus(a, b), a) == b { }
    UnscanScan(rel, Plus, Minus);
  }

  lemma {:induction false} AbsoluteOfRelative(abs: seq<Word>)
    ensures AbsoluteOffsets(RelativeOffsets(abs)) == abs
  {
    forall a: Word, b: Word ensures Plus(a, Minus(b, a)) == b { }
    ScanUnscan(abs, Plus, Minus);
  }

  lemma AscendingAppend(s: seq<nat>, x: nat)
    requires s != []
    ensures Ascending(s + [x]) <==> Ascending(s) && s[|s| - 1] <= x
  {
    var t := s + [x];
    assert forall i :: 0 <= i < |s| ==> t[i] == s[i];
    if Ascending(t) {
      assert t[|s| - 1] <= t[|s|];
    }
  }

  /** The absolute offsets ascend if and only if nothing wrapped around. */
  lemma {:induction false} AscendsExactly(rel: seq<Word>)
    ensures Ascending(AbsoluteOffsets(rel)) <==> Sum(rel) < TWO_64
    ensures Sum(rel) < TWO_64 && rel != [] ==> AbsoluteOffsets(rel)[|rel| - 1] == Sum(rel)
  {
    if |rel| == 1 {
      assert Sum(rel[..0]) == 0;
    } else if |rel| > 1 {
      var n := |rel| - 1;
      var init := AbsoluteOffsets(rel[..n]);
      AscendsExactly(rel[..n]);
      AscendingAppend(init, Plus(init[n - 1], rel[n]));
    }
  }

  /** Sums up in place. */
  method ToAbsolute(rel: seq<Word>) returns (abs: seq<Word>)
    ensures abs == AbsoluteOffsets(rel)
    ensures forall k :: 0 <= k < |rel| ==> abs[k] == Sum(rel[..k + 1]) % TWO_64
  {
    abs := rel;
    var i := 1;
    while i < |abs|
      invariant |abs| == |rel| && (i <= |rel| || i == 1)
      invariant i <= |rel| ==> abs[..i] == AbsoluteOffsets(rel[..i])
      invariant forall k :: i <= k < |rel| ==> abs[k] == rel[k]
    {
      abs := abs[i := Plus(abs[i], abs[i - 1])];
      assert rel[..i + 1][..i] == rel[..i];
      i := i + 1;
    }
    assert rel[..|rel|] == rel && abs[..|abs|] == abs;
    forall k | 0 <= k < |rel| ensures abs[k] == Sum(rel[..k + 1]) % TWO_64 { AbsoluteIsSum(rel, k); }
  }

  predicate IsAscending(s: seq<nat>) { forall i :: 0 <= i < |s| - 1 ==> s[i] <= s[i + 1] }

  lemma {:induction false} IsAscendingExactly(s: seq<nat>)
    ensures IsAscending(s) <==> Ascending(s)
  {
    if IsAscending(s) && |s| > 1 {
      var n := |s| - 1;
      forall i | 0 <= i < n - 1 ensures s[..n][i] <= s[..n][i + 1] { assert s[i] <= s[i + 1]; }
      IsAscendingExactly(s[..n]);
      forall i, j | 0 <= i < j < |s| ensures s[i] <= s[j] {
        if j == n { assert s[..n][i] <= s[..n][n - 1] <= s[n]; } else { assert s[..n][i] <= s[..n][j]; }
      }
    }
  }

  /** Takes differences in place, from the end; refuses an empty and an unordered list. */
  method ToRelative(abs: seq<Word>) returns (rel: Option<seq<Word>>)
    ensures rel.Some? <==> abs != [] && Ascending(abs)
    ensures rel.Some? ==> rel.value == RelativeOffsets(abs) && Sum(rel.value) == abs[|abs| - 1]
  {
    IsAscendingExactly(abs);
    if abs == [] || !IsAscending(abs) { return None; }
    var res := abs;
    var i := |res| - 1;
    while i != 0
      invariant 0 <= i < |res| == |abs| && res[..i + 1] == abs[..i + 1]
      invariant forall k :: i < k < |abs| ==> res[k] as int == abs[k] as int - abs[k - 1]
      decreases i
    {
      assert abs[i] == res[..i + 1][i] && abs[i - 1] == res[..i + 1][i - 1];
      res := res[i := res[i] - res[i - 1]];
      i := i - 1;
    }
    assert res[0] == res[..1][0] == abs[0];
    DifferencesAre(abs, res);
    AbsoluteOfRelative(abs);
    AscendsExactly(res);
    rel := Some(res);
  }

  lemma {:induction false} DifferencesAre(abs: seq<Word>, rel: seq<Word>)
    requires |rel| == |abs| > 0 && rel[0] == abs[0]
    requires forall k :: 0 < k < |abs| ==> rel[k] as int == abs[k] as int - abs[k - 1]
    ensures rel == RelativeOffsets(abs)
  {
    if |abs| > 1 {
      var n := |abs| - 1;
      DifferencesAre(abs[..n], rel[..n]);
      assert rel == rel[..n] + [rel[n]];
    }
  }
}
