/** Activation calls never deadlock: a targeted call locks its candidates in the
    order (created_at, id), and a sweep never waits. */
module FacilitatorLiveness {
  import opened Facilitators
  import opened FacilitatorSafety

  // ---- The locking order ----

  /** Before in ORDER BY created_at, id. */
  predicate Before(db: Db, a: Id, b: Id)
    requires a in db.noms && b in db.noms
  {
    a != b && Older(db, a, b)
  }

  ghost predicate InOrder(db: Db, ids: seq<Id>) {
    && (forall i :: 0 <= i < |ids| ==> ids[i] in db.noms)
    && (forall i, j :: 0 <= i < j < |ids| ==> Before(db, ids[i], ids[j]))
  }

  lemma {:induction false} OldestFirstInOrder(db: Db, s: set<Id>, limit: nat)
    requires s <= db.noms.Keys
    ensures InOrder(db, OldestFirst(db, s, limit))
    decreases limit
  {
    if limit > 0 && s != {} {
      var m := Oldest(db, s);
      var rest := OldestFirst(db, s - {m}, limit - 1);
      OldestFirstInOrder(db, s - {m}, limit - 1);
      OldestFirstIsOldest(db, s - {m}, limit - 1);
      forall j | 0 <= j < |rest| ensures Before(db, m, rest[j]) {
        assert rest[j] in Elems(rest);
      }
    }
  }

  /** A waiting call wants its remaining candidates in order, all of them after
      those it holds; no other call wants any. */
  ghost predicate QueueOk(db: Db, c: Call) {
    && InOrder(db, c.wanted)
    && (c.pc != Locking ==> c.wanted == [])
    && c.held <= db.noms.Keys
    && (forall h, k :: h in c.held && 0 <= k < |c.wanted| ==> Before(db, h, c.wanted[k]))
    && (c.pc == Begin || c.pc == Done ==> c.held == {} && c.todo == [])
  }

  ghost predicate Ordered(s: State) {
    forall i :: 0 <= i < |s.calls| ==> QueueOk(s.db, s.calls[i])
  }

  // ---- Every step keeps it ----

  /** Nothing moves a nomination in the order. */
  ghost predicate SameOrder(db: Db, after: Db) {
    && db.noms.Keys <= after.noms.Keys
    && forall n :: n in db.noms ==> after.noms[n].created == db.noms[n].created
  }

  lemma SameOrderKeeps(db: Db, after: Db, c: Call)
    requires QueueOk(db, c) && SameOrder(db, after)
    ensures QueueOk(after, c)
  {
  }

  lemma ActKeepsOrder(s: State, a: Action)
    requires CanAct(s, a)
    ensures SameOrder(s.db, Act(s, a).db)
  {
    if a.Step? && s.calls[a.i].pc == Rechecking && s.calls[a.i].todo == [] {
      ActivateAllChanges(s.db, s.calls[a.i].earned, s.calls[a.i].actor);
    }
  }

  lemma BegunQueue(s: State, i: nat)
    requires i < |s.calls| && QueueOk(s.db, s.calls[i]) && s.calls[i].pc == Begin
    ensures QueueOk(s.db, Begun(s, i))
  {
    var sel := s.calls[i].sel;
    if sel.Sweep? {
      OldestFirstIsOldest(s.db, Unlocked(s, i), sel.limit);
    } else {
      OldestFirstInOrder(s.db, Matching(s.db, sel), |Matching(s.db, sel)|);
    }
  }

  lemma LockNextQueue(db: Db, c: Call)
    requires QueueOk(db, c) && c.wanted != []
    ensures QueueOk(db, LockNext(db, c))
  {
  }

  lemma StepQueue(s: State, a: Action)
    requires CanAct(s, a) && (a.Step? || a.Rollback?) && QueueOk(s.db, s.calls[a.i])
    ensures QueueOk(s.db, Act(s, a).calls[a.i])
  {
    if a.Step? {
      if s.calls[a.i].pc == Begin {
        BegunQueue(s, a.i);
      } else if s.calls[a.i].pc == Locking && s.calls[a.i].wanted != [] {
        LockNextQueue(s.db, s.calls[a.i]);
      }
    }
  }

  lemma ActKeepsOrdered(s: State, a: Action)
    requires Ordered(s) && CanAct(s, a)
    ensures Ordered(Act(s, a))
  {
    var r := Act(s, a);
    ActKeepsOrder(s, a);
    forall i | 0 <= i < |r.calls| ensures QueueOk(r.db, r.calls[i]) {
      assert QueueOk(s.db, s.calls[i]);
      if (a.Step? || a.Rollback?) && a.i == i {
        StepQueue(s, a);
      }
      SameOrderKeeps(s.db, r.db, r.calls[i]);
    }
  }

  lemma {:induction false} RunKeepsOrdered(s: State, schedule: seq<Action>)
    requires Ordered(s) && Run(s, schedule).Some?
    ensures Ordered(Run(s, schedule).value)
    decreases |schedule|
  {
    if schedule != [] {
      ActKeepsOrdered(s, schedule[0]);
      RunKeepsOrdered(Act(s, schedule[0]), schedule[1..]);
    }
  }

  lemma InitialOrdered(s: State)
    requires Initial(s)
    ensures Ordered(s)
  {
  }

  // ---- Someone can step ----

  /** The call waits for a nomination that another call has locked. */
  ghost predicate Waits(s: State, i: nat) {
    && i < |s.calls| && s.calls[i].pc == Locking && s.calls[i].wanted != []
    && LockedByOther(s, i, s.calls[i].wanted[0])
  }

  /** The nominations after n in the order: what is left to wait for. */
  ghost function After(db: Db, n: Id): set<Id>
    requires n in db.noms
  {
    set m | m in db.noms && Before(db, n, m)
  }

  lemma AfterShrinks(db: Db, n: Id, m: Id)
    requires n in db.noms && m in db.noms && Before(db, n, m)
    ensures After(db, m) < After(db, n)
  {
    assert m in After(db, n) && m !in After(db, m);
  }

  /** Who waits, waits for a call that holds an earlier nomination than any it
      still wants, so following the waits comes to a call that can step. */
  lemma {:induction false} WaiterMoves(s: State, i: nat) returns (j: nat)
    requires Ordered(s) && Waits(s, i)
    ensures CanAct(s, Step(j))
    decreases After(s.db, s.calls[i].wanted[0])
  {
    var n := s.calls[i].wanted[0];
    assert QueueOk(s.db, s.calls[i]);
    j :| 0 <= j < |s.calls| && j != i && n in s.calls[j].held;
    assert QueueOk(s.db, s.calls[j]);
    if Waits(s, j) {
      AfterShrinks(s.db, n, s.calls[j].wanted[0]);
      j := WaiterMoves(s, j);
    }
  }

  /** In every state of every run in which some call is unfinished, some call can
      take its next step. */
  lemma SomeCallMoves(s: State, schedule: seq<Action>, i: nat) returns (j: nat)
    requires Initial(s) && Run(s, schedule).Some?
    requires i < |Run(s, schedule).value.calls| && Run(s, schedule).value.calls[i].pc != Done
    ensures CanAct(Run(s, schedule).value, Step(j))
  {
    InitialOrdered(s);
    RunKeepsOrdered(s, schedule);
    j := UnfinishedMoves(Run(s, schedule).value, i);
  }

  lemma UnfinishedMoves(s: State, i: nat) returns (j: nat)
    requires Ordered(s) && i < |s.calls| && s.calls[i].pc != Done
    ensures CanAct(s, Step(j))
  {
    j := i;
    if Waits(s, i) {
      j := WaiterMoves(s, i);
    }
  }

  // ---- Every call can be finished ----

  /** The most steps a call still takes over a table of n nominations. */
  function Remaining(c: Call, n: nat): nat {
    match c.pc
    case Begin => 2 * n + 3
    case Locking => 2 * |c.wanted| + |c.todo| + 2
    case Rechecking => |c.todo| + 1
    case Done => 0
  }

  function TotalRemaining(calls: seq<Call>, n: nat): nat {
    if calls == [] then 0 else Remaining(calls[0], n) + TotalRemaining(calls[1..], n)
  }

  lemma {:induction false} TotalUpdate(calls: seq<Call>, i: nat, c: Call, n: nat)
    requires i < |calls|
    ensures TotalRemaining(calls[i := c], n) == TotalRemaining(calls, n) - Remaining(calls[i], n) + Remaining(c, n)
  {
    if i == 0 {
      assert calls[0 := c][1..] == calls[1..];
    } else {
      assert calls[i := c][1..] == calls[1..][i - 1 := c];
      TotalUpdate(calls[1..], i - 1, c, n);
    }
  }

  lemma BegunRemaining(s: State, i: nat)
    requires i < |s.calls| && s.calls[i].pc == Begin && s.calls[i].todo == []
    ensures Remaining(Begun(s, i), |s.db.noms|) < 2 * |s.db.noms| + 3
  {
    assert |s.db.noms| == |s.db.noms.Keys|;
    var sel := s.calls[i].sel;
    var all := if sel.Sweep? then Unlocked(s, i) else Matching(s.db, sel);
    OldestFirstIsOldest(s.db, all, if sel.Sweep? then sel.limit else |all|);
    Fewer(all, s.db.noms.Keys);
  }

  lemma Fewer(a: set<Id>, b: set<Id>)
    requires a <= b
    ensures |a| <= |b|
  {
    assert |b - a| == |b| - |a|;
  }

  /** A step of a call shortens its own program and no other, and neither adds nor
      removes nominations. */
  lemma StepShortens(s: State, i: nat)
    requires CanAct(s, Step(i)) && (s.calls[i].pc == Begin ==> s.calls[i].todo == [])
    ensures var (r, n) := (Act(s, Step(i)), |s.db.noms|);
            && r.calls == s.calls[i := r.calls[i]] && |r.db.noms| == n
            && Remaining(r.calls[i], n) < Remaining(s.calls[i], n)
  {
    var c := s.calls[i];
    if c.pc == Begin {
      BegunRemaining(s, i);
    } else if c.pc == Rechecking && c.todo == [] {
      ActivateAllChanges(s.db, c.earned, c.actor);
      assert ActivateAll(s.db, c.earned, c.actor).noms.Keys == s.db.noms.Keys;
      SameKeysSameSize(ActivateAll(s.db, c.earned, c.actor).noms, s.db.noms);
    }
  }

  lemma SameKeysSameSize(a: map<Id, Nomination>, b: map<Id, Nomination>)
    requires a.Keys == b.Keys
    ensures |a| == |b|
  {
    assert |a| == |a.Keys| && |b| == |b.Keys|;
  }

  ghost predicate AllDone(s: State) { forall i :: 0 <= i < |s.calls| ==> s.calls[i].pc == Done }

  /** A schedule of call steps only, after which every call is done. */
  ghost predicate Finishes(s: State, schedule: seq<Action>) {
    && (forall k :: 0 <= k < |schedule| ==> schedule[k].Step?)
    && Run(s, schedule).Some? && AllDone(Run(s, schedule).value)
  }

  lemma FinishFirst(s: State, j: nat, rest: seq<Action>) returns (schedule: seq<Action>)
    requires CanAct(s, Step(j)) && Finishes(Act(s, Step(j)), rest)
    ensures Finishes(s, schedule)
  {
    schedule := [Step(j)] + rest;
    assert schedule[1..] == rest;
  }

  lemma StepDescends(s: State, j: nat)
    requires Ordered(s) && CanAct(s, Step(j))
    ensures var mid := Act(s, Step(j));
            && Ordered(mid)
            && TotalRemaining(mid.calls, |mid.db.noms|) < TotalRemaining(s.calls, |s.db.noms|)
  {
    assert QueueOk(s.db, s.calls[j]);
    StepShortens(s, j);
    TotalUpdate(s.calls, j, Act(s, Step(j)).calls[j], |s.db.noms|);
    ActKeepsOrdered(s, Step(j));
  }

  lemma {:induction false} OrderedFinishes(s: State) returns (schedule: seq<Action>)
    requires Ordered(s)
    ensures Finishes(s, schedule)
    decreases TotalRemaining(s.calls, |s.db.noms|)
  {
    if AllDone(s) {
      schedule := [];
    } else {
      var i :| 0 <= i < |s.calls| && s.calls[i].pc != Done;
      var j := UnfinishedMoves(s, i);
      StepDescends(s, j);
      var rest := OrderedFinishes(Act(s, Step(j)));
      schedule := FinishFirst(s, j, rest);
    }
  }

  /** From every state of every run the calls can all be finished, without rolling
      any of them back and without help from another writer. */
  lemma CallsCanFinish(s: State, schedule: seq<Action>) returns (rest: seq<Action>)
    requires Initial(s) && Run(s, schedule).Some?
    ensures Finishes(Run(s, schedule).value, rest)
  {
    InitialOrdered(s);
    RunKeepsOrdered(s, schedule);
    rest := OrderedFinishes(Run(s, schedule).value);
  }
}
