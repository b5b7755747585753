/** Batch ownership: scope guards over the one write batch of the database.  A guard that
    started the batch owns it and closes it; all others do nothing.  Batches and closings are
    numbered, so that "closed once, by the guard that started it" can be stated. */
module Batch {
  import opened Tables

  /** Batch number `batch` was closed by a guard that had started batch number `closer`. */
  datatype Closing = Closing(batch: nat, closer: nat)

  /** Committed data, the working copy while a batch is active, the number of batches started
      so far, which is also the number of the active one, and the closings in order. */
  datatype Db<D> = Db(committed: D, working: Option<D>, started: nat, closings: seq<Closing>)
  {
    predicate Active() { working.Some? }
  }

  /** A guard: whether it believes to own the batch, and the number of the batch it started. */
  datatype Guard = Guard(owns: bool, batch: nat)

  /** How a commit of the database ends: it goes through, it is refused before anything is changed,
      or the commit itself breaks and the batch is cleaned up all the same. */
  datatype Outcome = Goes | Refused | Breaks

  // ----- one guard; `fails` says whether the database operation throws

  function Closed<D>(db: Db<D>, closer: nat): Db<D> {
    db.(working := None, closings := db.closings + [Closing(db.started, closer)])
  }

  /** The constructor; a start that throws leaves no guard. */
  function Opened<D>(db: Db<D>, fails: bool): (Db<D>, Option<Guard>) {
    if fails then (db, None)
    else if db.Active() then (db, Some(Guard(false, 0)))
    else (db.(working := Some(db.committed), started := db.started + 1), Some(Guard(true, db.started + 1)))
  }

  /** Commit: when it throws, the guard goes on believing that it owns a batch.  Without an active
      batch the database throws. */
  function Committed<D>(db: Db<D>, g: Guard, outcome: Outcome): (Db<D>, Guard) {
    if !g.owns || !db.Active() || outcome.Refused? then (db, g)
    else if outcome.Breaks? then (Closed(db, g.batch), g)
    else (Closed(db, g.batch).(committed := db.working.value), g.(owns := false))
  }

  /** Abort: a throw comes before anything is changed. */
  function Aborted<D>(db: Db<D>, g: Guard, fails: bool): (Db<D>, Guard) {
    if !g.owns || !db.Active() || fails then (db, g)
    else (Closed(db, g.batch), g.(owns := false))
  }

  /** A write goes into the batch, or into a transaction of its own when there is none. */
  function Written<D>(db: Db<D>, data: D): Db<D> {
    if db.Active() then db.(working := Some(data)) else db.(committed := data)
  }

  // ----- any number of guards

  datatype System<D> = System(db: Db<D>, guards: map<nat, Guard>)

  datatype Action<D> =
    | Open(id: nat, fails: bool)
    | Move(from: nat, to: nat)
    | Commit(id: nat, outcome: Outcome)
    | Abort(id: nat, fails: bool)
    | Destroy(id: nat, fails: bool)
    | Write(data: D)

  /** One action; one that names a guard that is not there, or a new one that is, does nothing. */
  function Step<D>(s: System<D>, a: Action<D>): System<D> {
    match a
    case Open(id, fails) =>
      var (db, g) := Opened(s.db, fails);
      if id in s.guards || g.None? then s else System(db, s.guards[id := g.value])
    case Move(from, to) =>
      if from !in s.guards || to in s.guards then s
      else s.(guards := s.guards[to := s.guards[from]][from := s.guards[from].(owns := false)])
    case Commit(id, outcome) =>
      if id !in s.guards then s
      else var (db, g) := Committed(s.db, s.guards[id], outcome); System(db, s.guards[id := g])
    case Abort(id, fails) =>
      if id !in s.guards then s
      else var (db, g) := Aborted(s.db, s.guards[id], fails); System(db, s.guards[id := g])
    case Destroy(id, fails) =>
      if id !in s.guards then s
      else var (db, g) := Aborted(s.db, s.guards[id], fails); System(db, s.guards - {id})
    case Write(data) => s.(db := Written(s.db, data))
  }

  function Run<D>(s: System<D>, actions: seq<Action<D>>): System<D> {
    if actions == [] then s else Step(Run(s, actions[..|actions| - 1]), actions[|actions| - 1])
  }

  ghost predicate Along<D>(P: System<D> -> bool, s: System<D>, actions: seq<Action<D>>) {
    P(Run(s, actions)) && (actions == [] || Along(P, s, actions[..|actions| - 1]))
  }

  /** No action of the run is a bad one where it is made. */
  ghost predicate Never<D>(bad: (System<D>, Action<D>) -> bool, s: System<D>, actions: seq<Action<D>>) {
    actions == [] ||
    (var before := actions[..|actions| - 1];
     Never(bad, s, before) && !bad(Run(s, before), actions[|actions| - 1]))
  }

  predicate Owns(guards: map<nat, Guard>, id: nat) { id in guards && guards[id].owns }

  /** Batches were closed in the order they were started, each once, each by its own guard. */
  ghost predicate ClosedInOrder<D>(db: Db<D>) {
    && |db.closings| + (if db.Active() then 1 else 0) == db.started
    && forall k :: 0 <= k < |db.closings| ==> db.closings[k] == Closing(k + 1, k + 1)
  }

  // ----- one owner while a batch is active, and none otherwise

  ghost predicate Orderly<D>(s: System<D>) {
    && ClosedInOrder(s.db)
    && (forall id :: Owns(s.guards, id) ==> s.db.Active() && s.guards[id].batch == s.db.started)
    && (forall id, other :: Owns(s.guards, id) && Owns(s.guards, other) ==> id == other)
    && (s.db.Active() ==> exists id :: Owns(s.guards, id))
  }

  /** The steps that end this: an owner's commit breaks, or its destructor's abort throws. */
  predicate Disturbs<D>(s: System<D>, a: Action<D>) {
    match a
    case Commit(id, outcome) => outcome.Breaks? && Owns(s.guards, id)
    case Destroy(id, fails) => fails && Owns(s.guards, id)
    case _ => false
  }

  /** A step from an orderly system leads to an orderly one if and only if it is not one of
      those. */
  lemma OrderlyExactly<D>(s: System<D>, a: Action<D>)
    requires Orderly(s)
    ensures Orderly(Step(s, a)) <==> !Disturbs(s, a)
  {
    var t := Step(s, a);
    if Disturbs(s, a) {
      if a.Commit? {
        assert Owns(t.guards, a.id) && !t.db.Active();
      } else {
        assert t.db.Active() && t.guards == s.guards - {a.id};
        assert forall id :: Owns(t.guards, id) ==> Owns(s.guards, id);
      }
    } else if s.db.Active() {
      var o :| Owns(s.guards, o);
      StaysWithOwner(s, a, o);
    } else {
      StartsWithOpen(s, a);
    }
  }

  /** The name under which the owner is known after a step. */
  function OwnerAfter<D>(s: System<D>, a: Action<D>, o: nat): nat {
    if a.Move? && a.from == o && a.to !in s.guards then a.to else o
  }

  lemma StaysWithOwner<D>(s: System<D>, a: Action<D>, o: nat)
    requires Orderly(s) && !Disturbs(s, a) && s.db.Active() && Owns(s.guards, o)
    ensures Orderly(Step(s, a))
  {
    var t := Step(s, a);
    var p := OwnerAfter(s, a, o);
    assert t.db.Active() ==> Owns(t.guards, p);
    if (a.Commit? || a.Abort? || a.Destroy?) && Owns(s.guards, a.id) {
      assert a.id == o;
    }
    forall id | Owns(t.guards, id) ensures id == p && t.db.Active() && t.guards[id].batch == t.db.started {
      var q := if a.Move? && id == a.to && id !in s.guards then a.from else id;
      assert Owns(s.guards, q);
    }
  }

  lemma StartsWithOpen<D>(s: System<D>, a: Action<D>)
    requires Orderly(s) && !s.db.Active()
    ensures Orderly(Step(s, a))
  {
    var t := Step(s, a);
    assert forall id :: !Owns(s.guards, id);
    if a.Open? && !a.fails && a.id !in s.guards {
      assert Owns(t.guards, a.id);
    }
  }

  /** Over every run: the system is orderly all along it if and only if no step of it disturbs. */
  lemma {:induction false} RunsOrderlyExactly<D>(s: System<D>, actions: seq<Action<D>>)
    requires Orderly(s)
    ensures Along(Orderly, s, actions) <==> Never(Disturbs, s, actions)
  {
    if actions != [] {
      var before := actions[..|actions| - 1];
      RunsOrderlyExactly(s, before);
      assert Along(Orderly, s, before) ==> Orderly(Run(s, before));
      if Orderly(Run(s, before)) { OrderlyExactly(Run(s, before), actions[|actions| - 1]); }
    }
  }

  /** Which guards there are and which of them own: a guard that opens owns exactly if no batch was
      active, and is there in any case unless the start throws; a move hands ownership on; a guard
      that goes away is gone. */
  lemma GuardsChange<D>(s: System<D>, id: nat, to: nat)
    requires id != to && to !in s.guards
    ensures Step(s, Open(to, true)) == s
    ensures var t := Step(s, Open(to, false));
            && to in t.guards && (Owns(t.guards, to) <==> !s.db.Active()) && t.guards - {to} == s.guards
            && t.db == if s.db.Active() then s.db
                       else s.db.(working := Some(s.db.committed), started := s.db.started + 1)
    ensures id in s.guards ==>
              var t := Step(s, Move(id, to));
              && t.db == s.db && t.guards.Keys == s.guards.Keys + {to} && !Owns(t.guards, id)
              && t.guards[to] == s.guards[id] && t.guards - {id, to} == s.guards - {id}
    ensures Step(s, Destroy(id, false)).guards == Step(s, Destroy(id, true)).guards == s.guards - {id}
    ensures Step(s, Destroy(id, true)).db == s.db
  {
    assert (s.guards[to := Opened(s.db, false).1.value]) - {to} == s.guards;
  }

  // ----- rolling back

  /** Guards that do not own the batch have no effect on the database. */
  lemma OthersHaveNoEffect<D>(s: System<D>, a: Action<D>)
    requires (a.Commit? || a.Abort? || a.Destroy?) && !Owns(s.guards, a.id)
    ensures Step(s, a).db == s.db
  {
  }

  /** What changes the committed data: an owner's commit that succeeds, a write outside a batch. */
  predicate ChangesCommitted<D>(s: System<D>, a: Action<D>) {
    (a.Commit? && a.outcome.Goes? && Owns(s.guards, a.id) && s.db.Active()) || (a.Write? && !s.db.Active())
  }

  lemma StepKeepsCommitted<D>(s: System<D>, a: Action<D>)
    requires !ChangesCommitted(s, a)
    ensures Step(s, a).db.committed == s.db.committed
  {
  }

  ghost predicate NeverCommits<D>(s: System<D>, actions: seq<Action<D>>) {
    forall n :: 0 <= n < |actions| ==> !ChangesCommitted(Run(s, actions[..n]), actions[n])
  }

  lemma {:induction false} CommittedFixed<D>(s: System<D>, actions: seq<Action<D>>)
    requires NeverCommits(s, actions)
    ensures Run(s, actions).db.committed == s.db.committed
  {
    if actions != [] {
      var before := actions[..|actions| - 1];
      assert forall n :: 0 <= n < |before| ==> before[..n] == actions[..n];
      CommittedFixed(s, before);
      assert !ChangesCommitted(Run(s, actions[..|actions| - 1]), actions[|actions| - 1]);
      StepKeepsCommitted(Run(s, before), actions[|actions| - 1]);
    }
  }

  /** Under an active batch the committed data stay as they are. */
  lemma ActiveKeepsCommitted<D>(s: System<D>, a: Action<D>)
    requires s.db.Active() && Step(s, a).db.Active()
    ensures Step(s, a).db.committed == s.db.committed && Step(s, a).db.closings == s.db.closings
    ensures Step(s, a).db.started == s.db.started
  {
  }

  /** What was written last, if anything was. */
  function LastWritten<D>(actions: seq<Action<D>>, data: D): D {
    if actions == [] then data
    else if actions[|actions| - 1].Write? then actions[|actions| - 1].data
    else LastWritten(actions[..|actions| - 1], data)
  }

  lemma StaysWritten<D>(s: System<D>, a: Action<D>)
    requires s.db.Active() && Step(s, a).db.Active()
    ensures Step(s, a).db.working == if a.Write? then Some(a.data) else s.db.working
  {
  }

  /** Without a batch a write is stored at once. */
  lemma WrittenAtOnce<D>(s: System<D>, data: D)
    requires !s.db.Active()
    ensures Step(s, Write(data)) == s.(db := s.db.(committed := data))
  {
  }

  lemma {:induction false} WhileActive<D>(s: System<D>, actions: seq<Action<D>>)
    requires !s.db.Active() && actions != []
    requires forall n :: 0 < n <= |actions| ==> Run(s, actions[..n]).db.Active()
    ensures var t := Run(s, actions).db;
            && t.committed == s.db.committed && t.closings == s.db.closings && t.started == s.db.started + 1
            && t.working == Some(LastWritten(actions, s.db.committed))
  {
    var before := actions[..|actions| - 1];
    assert actions[..|actions|] == actions;
    if before == [] {
      assert Run(s, before) == s;
    } else {
      assert forall n :: 0 < n <= |before| ==> before[..n] == actions[..n];
      WhileActive(s, before);
      ActiveKeepsCommitted(Run(s, before), actions[|actions| - 1]);
      StaysWritten(Run(s, before), actions[|actions| - 1]);
    }
  }

  /** Every batch of every run, whoever opens, moves, commits and aborts in it: a batch that ends
      otherwise than by a commit that goes through leaves the data from its start, and one that ends
      so leaves what was written last, or those data if nothing was. */
  lemma {:induction false} BatchRollsBack<D>(s: System<D>, actions: seq<Action<D>>, last: Action<D>)
    requires !s.db.Active() && actions != []
    requires forall n :: 0 < n <= |actions| ==> Run(s, actions[..n]).db.Active()
    requires !Step(Run(s, actions), last).db.Active()
    ensures var u := Step(Run(s, actions), last).db;
            && |u.closings| == |s.db.closings| + 1 && u.closings[..|s.db.closings|] == s.db.closings
            && u.closings[|s.db.closings|].batch == s.db.started + 1
            && u.committed ==
               if last.Commit? && last.outcome.Goes? then LastWritten(actions, s.db.committed) else s.db.committed
  {
    WhileActive(s, actions);
  }

  // ----- who can end a batch

  /** The action ends the batch of guard id. */
  predicate Closes<D>(a: Action<D>, id: nat) {
    match a
    case Commit(i, outcome) => i == id && !outcome.Refused?
    case Abort(i, fails) => i == id && !fails
    case Destroy(i, _) => i == id
    case _ => false
  }

  predicate Through<D>(a: Action<D>, id: nat) {
    (a.Commit? || a.Abort? || a.Destroy?) && a.id == id
  }

  /** Guard o has the active batch. */
  predicate Holder<D>(s: System<D>, o: nat) {
    s.db.Active() && Owns(s.guards, o) && s.guards[o].batch == s.db.started
  }

  /** The owner's name after a run. */
  function OwnerAt<D>(s: System<D>, actions: seq<Action<D>>, o: nat): nat {
    if actions == [] then o
    else
      var before := actions[..|actions| - 1];
      OwnerAfter(Run(s, before), actions[|actions| - 1], OwnerAt(s, before, o))
  }

  lemma OthersLeaveBatch<D>(s: System<D>, a: Action<D>, o: nat)
    requires Holder(s, o) && !Closes(a, o)
    requires forall id :: Owns(s.guards, id) && Through(a, id) ==> id == o
    ensures Holder(Step(s, a), OwnerAfter(s, a, o))
  {
    if a.Commit? || a.Abort? || a.Destroy? { assert Through(a, a.id); }
  }

  /** No step of the run is one by which the owner of the moment ends the batch. */
  ghost predicate NeverCloses<D>(s: System<D>, actions: seq<Action<D>>, o: nat) {
    forall n :: 0 <= n < |actions| ==> !Closes(actions[n], OwnerAt(s, actions[..n], o))
  }

  lemma {:induction false} NeverClosesBefore<D>(s: System<D>, actions: seq<Action<D>>, o: nat)
    requires actions != [] && NeverCloses(s, actions, o)
    ensures var before := actions[..|actions| - 1];
            NeverCloses(s, before, o) && !Closes(actions[|actions| - 1], OwnerAt(s, before, o))
  {
    var before := actions[..|actions| - 1];
    forall n | 0 <= n < |before| ensures !Closes(before[n], OwnerAt(s, before[..n], o)) {
      assert before[..n] == actions[..n];
    }
  }

  /** Only the owner of the moment ends a batch: whatever other guards open, move, commit, abort and
      destroy, whatever is written, and through however many guards the batch is moved. */
  lemma {:induction false} OwnerAloneDecides<D>(s: System<D>, actions: seq<Action<D>>, o: nat)
    requires Orderly(s) && Holder(s, o) && NeverCloses(s, actions, o)
    ensures Orderly(Run(s, actions)) && Holder(Run(s, actions), OwnerAt(s, actions, o))
    ensures Run(s, actions).db.committed == s.db.committed && Run(s, actions).db.closings == s.db.closings
  {
    if actions != [] {
      var before := actions[..|actions| - 1];
      NeverClosesBefore(s, actions, o);
      OwnerAloneDecides(s, before, o);
      OrderlyExactly(Run(s, before), actions[|actions| - 1]);
      OthersLeaveBatch(Run(s, before), actions[|actions| - 1], OwnerAt(s, before, o));
      ActiveKeepsCommitted(Run(s, before), actions[|actions| - 1]);
    }
  }

  /** The ways in which an owner ends its batch. */
  lemma OwnerCloses<D>(s: System<D>, o: nat)
    requires Holder(s, o)
    ensures !Step(s, Destroy(o, false)).db.Active() && !Step(s, Abort(o, false)).db.Active()
    ensures !Step(s, Commit(o, Goes)).db.Active() && !Step(s, Commit(o, Breaks)).db.Active()
    ensures Step(s, Destroy(o, false)).db.committed == Step(s, Abort(o, false)).db.committed == s.db.committed
    ensures Step(s, Commit(o, Breaks)).db.committed == s.db.committed
    ensures Step(s, Commit(o, Goes)).db.committed == s.db.working.value
  {
  }

  // ----- commits that break

  /** After guard 0's commit broke, guard 1 starts a batch, guard 0 closes it, and what guard 1
      commits is not stored. */
  lemma FailedCommitLosesWork<D>(s: System<D>, data: D)
    requires s == System(Db(s.db.committed, None, 0, []), map[])
    ensures var t := Step(Step(Step(s, Open(0, false)), Commit(0, Breaks)), Open(1, false));
            var u := Step(Step(Step(t, Write(data)), Abort(0, false)), Commit(1, Goes));
            u.db.committed == s.db.committed && u.db.closings == [Closing(1, 1), Closing(2, 1)]
  {
    var t := Step(Step(Step(s, Open(0, false)), Commit(0, Breaks)), Open(1, false));
    assert t.guards[0] == Guard(true, 1) && t.guards[1] == Guard(true, 2);
  }

  /** The guard believes to own the active batch and does not. */
  predicate Stale<D>(s: System<D>, id: nat) {
    s.db.Active() && Owns(s.guards, id) && s.guards[id].batch != s.db.started
  }

  /** A guard closes a batch that it neither started nor was given. */
  predicate StaleClose<D>(s: System<D>, a: Action<D>) {
    match a
    case Commit(id, outcome) => Stale(s, id) && !outcome.Refused?
    case Abort(id, fails) => Stale(s, id) && !fails
    case Destroy(id, fails) => Stale(s, id) && !fails
    case _ => false
  }

  /** From any state in which batches were closed in order, nested or not: a step keeps that if and
      only if it is not such a closing. */
  lemma ClosedExactly<D>(s: System<D>, a: Action<D>)
    requires ClosedInOrder(s.db)
    ensures ClosedInOrder(Step(s, a).db) <==> !StaleClose(s, a)
  {
    var t := Step(s, a).db;
    if StaleClose(s, a) {
      var n := |s.db.closings|;
      assert t.closings[n] == Closing(s.db.started, s.guards[a.id].batch) && s.db.started == n + 1;
    }
  }

  ghost predicate InOrder<D>(s: System<D>) { ClosedInOrder(s.db) }

  /** Over every run: each batch is closed once, in order and by the guard that has it, all along the
      run, if and only if no guard closes one that it does not have. */
  lemma {:induction false} RunsClosedExactly<D>(s: System<D>, actions: seq<Action<D>>)
    requires ClosedInOrder(s.db)
    ensures Along(InOrder, s, actions) <==> Never(StaleClose, s, actions)
  {
    if actions != [] {
      var before := actions[..|actions| - 1];
      RunsClosedExactly(s, before);
      assert Along(InOrder, s, before) ==> InOrder(Run(s, before));
      if InOrder(Run(s, before)) { ClosedExactly(Run(s, before), actions[|actions| - 1]); }
    }
  }

  /** Nested scopes: a guard that comes into being, by opening or by a move, is newer than all
      others; while a batch is active the code does not commit, abort or move a guard whose own
      batch is gone, and of the guards that believe to own it the newest goes first. */
  ghost predicate NestedStep<D>(s: System<D>, a: Action<D>) {
    match a
    case Open(id, _) => Newest(s, id)
    case Move(from, to) => Newest(s, to) && !Stale(s, from)
    case Commit(id, _) => !Stale(s, id)
    case Abort(id, _) => !Stale(s, id)
    case Destroy(id, fails) =>
      s.db.Active() && Owns(s.guards, id) ==> !fails && forall other: nat :: Owns(s.guards, other) ==> other <= id
    case Write(_) => true
  }

  ghost predicate Newest<D>(s: System<D>, id: nat) { forall other :: other in s.guards ==> other < id }

  /** No guard is ahead of the batches; of those that believe to own the active batch the newest has
      it, and the others have older ones. */
  ghost predicate Nested<D>(s: System<D>) {
    && ClosedInOrder(s.db)
    && (forall id :: Owns(s.guards, id) ==> s.guards[id].batch <= s.db.started)
    && (s.db.Active() ==> exists o :: NewestOwner(s, o))
  }

  ghost predicate NewestOwner<D>(s: System<D>, o: nat) {
    && Holder(s, o)
    && forall id: nat :: Owns(s.guards, id) && id != o ==> id < o && s.guards[id].batch < s.db.started
  }

  /** In nested scopes even commits that break do no harm: every batch is closed once, by the guard
      that started it or the one it was moved to. */
  lemma NestedKept<D>(s: System<D>, a: Action<D>)
    requires Nested(s) && NestedStep(s, a)
    ensures Nested(Step(s, a))
  {
    if s.db.Active() {
      var o :| NewestOwner(s, o);
      NestedActive(s, a, o);
    } else {
      NestedIdle(s, a);
    }
  }

  lemma NestedActive<D>(s: System<D>, a: Action<D>, o: nat)
    requires Nested(s) && NestedStep(s, a) && NewestOwner(s, o)
    ensures Nested(Step(s, a))
    ensures Step(s, a).db.Active() ==> NewestOwner(Step(s, a), OwnerAfter(s, a, o))
  {
    ClosedExactly(s, a);
    var t := Step(s, a);
    var p := OwnerAfter(s, a, o);
    if (a.Commit? || a.Abort? || a.Destroy?) && Owns(s.guards, a.id) {
      assert a.id == o;
    }
    assert t.db.Active() ==> Holder(t, p);
    forall id | Owns(t.guards, id) && id != p ensures Owns(s.guards, id) && id != o && t.guards[id] == s.guards[id] {
    }
    assert t.db.Active() ==> NewestOwner(t, p);
  }

  lemma NestedIdle<D>(s: System<D>, a: Action<D>)
    requires Nested(s) && NestedStep(s, a) && !s.db.Active()
    ensures Nested(Step(s, a))
  {
    ClosedExactly(s, a);
    var t := Step(s, a);
    if a.Open? && !a.fails && a.id !in s.guards {
      assert NewestOwner(t, a.id);
    }
  }

  ghost predicate NestedSteps<D>(s: System<D>, actions: seq<Action<D>>) {
    forall n :: 0 <= n < |actions| ==> NestedStep(Run(s, actions[..n]), actions[n])
  }

  lemma {:induction false} NestedStepsBefore<D>(s: System<D>, actions: seq<Action<D>>)
    requires actions != [] && NestedSteps(s, actions)
    ensures var before := actions[..|actions| - 1];
            NestedSteps(s, before) && NestedStep(Run(s, before), actions[|actions| - 1])
  {
    var before := actions[..|actions| - 1];
    forall n | 0 <= n < |before| ensures NestedStep(Run(s, before[..n]), before[n]) {
      assert before[..n] == actions[..n];
    }
  }

  lemma {:induction false} NestedRuns<D>(s: System<D>, actions: seq<Action<D>>)
    requires Nested(s) && NestedSteps(s, actions)
    ensures Nested(Run(s, actions))
  {
    if actions != [] {
      NestedStepsBefore(s, actions);
      NestedRuns(s, actions[..|actions| - 1]);
      NestedKept(Run(s, actions[..|actions| - 1]), actions[|actions| - 1]);
    }
  }

  /** Also in nested scopes with commits that broke before: only the owner of the moment ends a batch. */
  lemma {:induction false} NestedOwnerDecides<D>(s: System<D>, actions: seq<Action<D>>, o: nat)
    requires Nested(s) && NewestOwner(s, o) && NestedSteps(s, actions) && NeverCloses(s, actions, o)
    ensures Nested(Run(s, actions)) && NewestOwner(Run(s, actions), OwnerAt(s, actions, o))
    ensures Run(s, actions).db.committed == s.db.committed && Run(s, actions).db.closings == s.db.closings
  {
    if actions != [] {
      var before := actions[..|actions| - 1];
      NestedStepsBefore(s, actions);
      NeverClosesBefore(s, actions, o);
      NestedOwnerDecides(s, before, o);
      var t, a, p := Run(s, before), actions[|actions| - 1], OwnerAt(s, before, o);
      OnlyOwnerActs(t, a, p);
      OthersLeaveBatch(t, a, p);
      NestedActive(t, a, p);
      ActiveKeepsCommitted(t, a);
    }
  }

  lemma OnlyOwnerActs<D>(s: System<D>, a: Action<D>, o: nat)
    requires NewestOwner(s, o) && NestedStep(s, a)
    ensures forall id :: Owns(s.guards, id) && Through(a, id) ==> id == o
  {
  }
}
