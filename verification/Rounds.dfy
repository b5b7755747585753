/** Loops as values: a step that takes the round number is run for rounds 0 to n - 1, or backwards
    from round n - 1 to 0.  The first throw ends the loop and reports the state it left. */
module Rounds {

  datatype Error =
    | KeyImageExists | TxExists | TxMissing | OutputMissing | WrongOutputType
    | RctWithoutCommitment | OutPkRange | UnlockTimesRange | AppendOrder
    | HeightEntryMissing | OutputTxMissing | OutputIndicesMissing
    | InconsistentSizes | BlockExists | ParentMissing | ParentNotTop | BlockMissing

  /** The outcome of an operation and the state after it, also after a throw. */
  datatype Res<+S, +V> = Ok(state: S, value: V) | Throw(state: S, error: Error)

  function Each<S, V>(step: (S, nat) -> Res<S, V>, s: S, n: nat): Res<S, seq<V>> {
    if n == 0 then Ok(s, [])
    else
      var r := Each(step, s, n - 1);
      if r.Throw? then r
      else
        var q := step(r.state, n - 1);
        if q.Throw? then Throw(q.state, q.error) else Ok(q.state, r.value + [q.value])
  }

  function Back<S, V>(step: (S, nat) -> Res<S, V>, s: S, n: nat, done: seq<V>): Res<S, seq<V>>
    decreases n
  {
    if n == 0 then Ok(s, done)
    else
      var q := step(s, n - 1);
      if q.Throw? then Throw(q.state, q.error) else Back(step, q.state, n - 1, done + [q.value])
  }

  /** A loop that stopped early has its result: later rounds change nothing. */
  lemma {:induction false} EachStops<S, V>(step: (S, nat) -> Res<S, V>, s: S, i: nat, n: nat)
    requires i <= n && Each(step, s, i).Throw?
    ensures Each(step, s, n) == Each(step, s, i)
  {
    if i < n { EachStops(step, s, i, n - 1); }
  }

  lemma {:induction false} EachNext<S, V>(step: (S, nat) -> Res<S, V>, s: S, i: nat, n: nat)
    requires i < n && Each(step, s, i).Ok?
    ensures var q := step(Each(step, s, i).state, i);
            if q.Throw? then Each(step, s, n) == Throw(q.state, q.error)
            else Each(step, s, i + 1) == Ok(q.state, Each(step, s, i).value + [q.value])
  {
    if step(Each(step, s, i).state, i).Throw? { EachStops(step, s, i + 1, n); }
  }

  lemma {:induction false} BackNext<S, V>(step: (S, nat) -> Res<S, V>, s: S, n: nat, done: seq<V>)
    requires n > 0
    ensures var q := step(s, n - 1);
            Back(step, s, n, done) ==
            if q.Throw? then Throw(q.state, q.error) else Back(step, q.state, n - 1, done + [q.value])
  {
  }

  lemma {:induction false} EachPrefix<S, V>(step: (S, nat) -> Res<S, V>, s: S, i: nat, n: nat)
    requires i <= n && Each(step, s, n).Ok?
    ensures Each(step, s, i).Ok? && |Each(step, s, n).value| == n
    ensures Each(step, s, i).value == Each(step, s, n).value[..i]
  {
    if i < n {
      EachPrefix(step, s, i, n - 1);
    } else if n > 0 {
      EachPrefix(step, s, n - 1, n - 1);
    }
  }

  // ----- what every round keeps

  ghost predicate KeptAt<S(!new), V(!new)>(
    step: (S, nat) -> Res<S, V>, P: (S, seq<V>, nat) -> bool, s: S, vs: seq<V>, k: nat)
  {
    P(s, vs, k) && |vs| == k && step(s, k).Ok? ==> P(step(s, k).state, vs + [step(s, k).value], k + 1)
  }

  lemma {:induction false} EachKeeps<S(!new), V(!new)>(
    step: (S, nat) -> Res<S, V>, P: (S, seq<V>, nat) -> bool, s: S, n: nat)
    requires P(s, [], 0) && forall t, vs, k :: 0 <= k < n ==> KeptAt(step, P, t, vs, k)
    requires Each(step, s, n).Ok?
    ensures |Each(step, s, n).value| == n && P(Each(step, s, n).state, Each(step, s, n).value, n)
  {
    if n > 0 {
      EachKeeps(step, P, s, n - 1);
      assert KeptAt(step, P, Each(step, s, n - 1).state, Each(step, s, n - 1).value, n - 1);
    }
  }

  /** Round k goes through exactly when it should, and leaves a state of the same kind. */
  ghost predicate GoesAt<S(!new), V(!new)>(step: (S, nat) -> Res<S, V>, I: S -> bool, good: nat -> bool, s: S, k: nat) {
    I(s) ==> (step(s, k).Ok? <==> good(k)) && (step(s, k).Ok? ==> I(step(s, k).state))
  }

  lemma {:induction false} EachGoesExactly<S(!new), V(!new)>(
    step: (S, nat) -> Res<S, V>, I: S -> bool, good: nat -> bool, s: S, n: nat)
    requires I(s) && forall t, k :: 0 <= k < n ==> GoesAt(step, I, good, t, k)
    ensures Each(step, s, n).Ok? <==> forall k :: 0 <= k < n ==> good(k)
    ensures Each(step, s, n).Ok? ==> I(Each(step, s, n).state)
  {
    if n > 0 {
      EachGoesExactly(step, I, good, s, n - 1);
      assert GoesAt(step, I, good, Each(step, s, n - 1).state, n - 1);
    }
  }

  // ----- loops whose rounds depend on what came before

  /** What n rounds make of b. */
  function Folded<B>(next: (B, nat) -> B, b: B, n: nat): B {
    if n == 0 then b else next(Folded(next, b, n - 1), n - 1)
  }

  /** Each of the n rounds fits what the rounds before it made of b. */
  predicate AllFit<B>(fits: (B, nat) -> bool, next: (B, nat) -> B, b: B, n: nat) {
    n == 0 || (AllFit(fits, next, b, n - 1) && fits(Folded(next, b, n - 1), n - 1))
  }

  /** Round k goes through exactly when it fits the view of the state, and changes the view. */
  ghost predicate TracksAt<S(!new), V(!new), B(!new)>(
    step: (S, nat) -> Res<S, V>, I: S -> bool, view: S -> B, fits: (B, nat) -> bool, next: (B, nat) -> B, s: S, k: nat)
  {
    I(s) ==> (step(s, k).Ok? <==> fits(view(s), k)) &&
             (step(s, k).Ok? ==> I(step(s, k).state) && view(step(s, k).state) == next(view(s), k))
  }

  lemma {:induction false} EachTracks<S(!new), V(!new), B(!new)>(
    step: (S, nat) -> Res<S, V>, I: S -> bool, view: S -> B, fits: (B, nat) -> bool, next: (B, nat) -> B, s: S, n: nat)
    requires I(s) && forall t, k :: 0 <= k < n ==> TracksAt(step, I, view, fits, next, t, k)
    ensures Each(step, s, n).Ok? <==> AllFit(fits, next, view(s), n)
    ensures var r := Each(step, s, n); r.Ok? ==> I(r.state) && view(r.state) == Folded(next, view(s), n)
  {
    if n > 0 {
      EachTracks(step, I, view, fits, next, s, n - 1);
      assert TracksAt(step, I, view, fits, next, Each(step, s, n - 1).state, n - 1);
    }
  }

  /** A throw comes from some round. */
  lemma {:induction false} EachThrowsAt<S, V>(step: (S, nat) -> Res<S, V>, s: S, n: nat) returns (k: nat)
    requires Each(step, s, n).Throw?
    ensures k < n && Each(step, s, k).Ok?
    ensures var q := step(Each(step, s, k).state, k); q.Throw? && q.error == Each(step, s, n).error
  {
    if Each(step, s, n - 1).Throw? { k := EachThrowsAt(step, s, n - 1); } else { k := n - 1; }
  }

  ghost predicate KeptBackAt<S(!new), V(!new)>(step: (S, nat) -> Res<S, V>, P: (S, nat) -> bool, s: S, k: nat) {
    P(s, k + 1) && step(s, k).Ok? ==> P(step(s, k).state, k)
  }

  lemma {:induction false} BackKeeps<S(!new), V(!new)>(
    step: (S, nat) -> Res<S, V>, P: (S, nat) -> bool, s: S, n: nat, done: seq<V>)
    requires P(s, n) && forall t, k :: 0 <= k < n ==> KeptBackAt(step, P, t, k)
    requires Back(step, s, n, done).Ok?
    ensures P(Back(step, s, n, done).state, 0)
    decreases n
  {
    if n > 0 {
      assert KeptBackAt(step, P, s, n - 1);
      BackKeeps(step, P, step(s, n - 1).state, n - 1, done + [step(s, n - 1).value]);
    }
  }

  // ----- going back undoes going forward

  /** Where the forward round k went through with the value vs[k], the backward round k gives the
      state back and yields us[k] if k is a good round, and throws if it is not. */
  ghost predicate UndoneAt<S(!new), V(!new), U(!new)>(
    fwd: (S, nat) -> Res<S, V>, back: (S, nat) -> Res<S, U>, I: S -> bool, good: nat -> bool,
    vs: seq<V>, us: seq<U>, s: S, k: nat)
    requires k < |vs| && k < |us|
  {
    I(s) && fwd(s, k).Ok? && fwd(s, k).value == vs[k] ==>
    && I(fwd(s, k).state)
    && if good(k) then back(fwd(s, k).state, k) == Ok(s, us[k]) else back(fwd(s, k).state, k).Throw?
  }

  function Reversed<T>(s: seq<T>, n: nat): seq<T>
    requires n <= |s|
  {
    if n == 0 then [] else [s[n - 1]] + Reversed(s, n - 1)
  }

  lemma {:induction false} ReversedIs<T>(s: seq<T>, n: nat)
    requires n <= |s|
    ensures |Reversed(s, n)| == n && forall k :: 0 <= k < n ==> Reversed(s, n)[k] == s[n - 1 - k]
  {
    if n > 0 { ReversedIs(s, n - 1); }
  }

  /** Going back over n rounds undoes them if all of them are good, and throws otherwise. */
  lemma {:induction false} BackUndoesEach<S(!new), V(!new), U(!new)>(
    fwd: (S, nat) -> Res<S, V>, back: (S, nat) -> Res<S, U>, I: S -> bool, good: nat -> bool,
    vs: seq<V>, us: seq<U>, s: S, n: nat, done: seq<U>)
    requires n <= |vs| && n <= |us| && I(s)
    requires forall t, k :: 0 <= k < n ==> UndoneAt(fwd, back, I, good, vs, us, t, k)
    requires Each(fwd, s, n).Ok? && Each(fwd, s, n).value == vs[..n]
    ensures I(Each(fwd, s, n).state)
    ensures (forall k :: 0 <= k < n ==> good(k)) ==>
              Back(back, Each(fwd, s, n).state, n, done) == Ok(s, done + Reversed(us, n))
    ensures !(forall k :: 0 <= k < n ==> good(k)) ==> Back(back, Each(fwd, s, n).state, n, done).Throw?
    decreases n
  {
    if n == 0 {
      assert done + Reversed(us, 0) == done;
    } else {
      EachPrefix(fwd, s, n - 1, n);
      assert vs[..n][..n - 1] == vs[..n - 1];
      BackUndoesEach(fwd, back, I, good, vs, us, s, n - 1, done + [us[n - 1]]);
      var q := Each(fwd, s, n - 1).state;
      assert fwd(q, n - 1).value == vs[..n][n - 1] == vs[n - 1];
      assert UndoneAt(fwd, back, I, good, vs, us, q, n - 1);
      assert done + [us[n - 1]] + Reversed(us, n - 1) == done + Reversed(us, n);
    }
  }
}
