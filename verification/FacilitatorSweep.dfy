/** Uncontended sweeps: each one activates the oldest eligible nominations, up
    to its limit, and repeating it drains the backlog. */
module FacilitatorSweep {
  import opened Options
  import opened Facilitators
  import opened FacilitatorSafety

  ghost function Sweepable(db: Db, limit: nat): seq<Id> {
    OldestFirst(db, EligibleSet(db), limit)
  }

  /** The tables after one sweep that nobody else interferes with. */
  ghost function SweepOnce(db: Db, limit: nat): Db {
    ActivateAll(db, Sweepable(db, limit), None)
  }

  ghost function SweepTimes(db: Db, limit: nat, k: nat): Db {
    if k == 0 then db else SweepOnce(SweepTimes(db, limit, k - 1), limit)
  }

  // ---- The calls really compute SweepOnce ----

  function Steps(i: nat, n: nat): seq<Action> {
    if n == 0 then [] else [Step(i)] + Steps(i, n - 1)
  }

  lemma RunFirst(s: State, a: Action, rest: seq<Action>)
    requires CanAct(s, a)
    ensures Run(s, [a] + rest) == Run(Act(s, a), rest)
  {
    assert ([a] + rest)[1..] == rest;
  }

  lemma StepFirst(s: State, i: nat, n: nat)
    requires CanAct(s, Step(i))
    ensures Run(s, Steps(i, n + 1)) == Run(Act(s, Step(i)), Steps(i, n))
  {
    RunFirst(s, Step(i), Steps(i, n));
  }

  ghost predicate ReadyToCheck(s: State, i: nat) {
    && i < |s.calls| && s.calls[i].pc == Rechecking && s.calls[i].actor == None
    && s.calls[i].wanted == [] && s.calls[i].sel.Sweep?
    && forall k :: 0 <= k < |s.calls[i].todo| ==> Eligible(s.db, s.calls[i].todo[k])
  }

  lemma {:induction false} RecheckAll(s: State, i: nat)
    requires ReadyToCheck(s, i)
    ensures var c := s.calls[i];
            Run(s, Steps(i, |c.todo| + 1)) ==
            Some(State(ActivateAll(s.db, c.earned + c.todo, None), s.calls[i := Halt(c)]))
    decreases |s.calls[i].todo|
  {
    var c := s.calls[i];
    StepFirst(s, i, |c.todo|);
    var mid := Act(s, Step(i));
    if c.todo == [] {
      assert c.earned + c.todo == c.earned;
      assert Run(mid, []) == Some(mid);
    } else {
      assert Eligible(s.db, c.todo[0]);
      assert (c.earned + [c.todo[0]]) + c.todo[1..] == c.earned + c.todo;
      RecheckAll(mid, i);
      assert s.calls[i := mid.calls[i]][i := Halt(c)] == s.calls[i := Halt(c)];
    }
  }

  ghost predicate Alone(s: State, i: nat, limit: nat) {
    && i < |s.calls| && s.calls[i] == Fresh(Sweep(limit), None)
    && forall j :: 0 <= j < |s.calls| && j != i ==> s.calls[j].held == {}
  }

  lemma SweepBegins(s: State, i: nat, limit: nat)
    requires Alone(s, i, limit)
    ensures CanAct(s, Step(i))
    ensures var mid := Act(s, Step(i));
            && mid.db == s.db && ReadyToCheck(mid, i)
            && mid.calls[i].todo == Sweepable(s.db, limit) && mid.calls[i].earned == []
            && mid.calls == s.calls[i := mid.calls[i]]
  {
    var ids := Sweepable(s.db, limit);
    assert Unlocked(s, i) == EligibleSet(s.db);
    OldestFirstIsOldest(s.db, EligibleSet(s.db), limit);
    forall k | 0 <= k < |ids| ensures Eligible(s.db, ids[k]) {
      assert ids[k] in Elems(ids);
    }
  }

  lemma SelectedRuns(calls: seq<Call>, s: State, i: nat) returns (c: Call)
    requires ReadyToCheck(s, i) && s.calls[i].earned == []
    requires i < |calls| && s.calls == calls[i := s.calls[i]]
    ensures c.pc == Done && c.held == {}
    ensures Run(s, Steps(i, |s.calls[i].todo| + 1)) ==
            Some(State(ActivateAll(s.db, s.calls[i].todo, None), calls[i := c]))
  {
    RecheckAll(s, i);
    assert [] + s.calls[i].todo == s.calls[i].todo;
    c := Halt(s.calls[i]);
    assert s.calls[i := c] == calls[i := c];
  }

  /** A sweep during which no other call holds a nomination and no other writer
      runs commits the oldest min(limit, eligible) nominations, and only them. */
  lemma UncontendedSweep(s: State, i: nat, limit: nat) returns (c: Call)
    requires Alone(s, i, limit)
    ensures c.pc == Done && c.held == {}
    ensures Run(s, Steps(i, |Sweepable(s.db, limit)| + 2)) == Some(State(SweepOnce(s.db, limit), s.calls[i := c]))
  {
    SweepBegins(s, i, limit);
    StepFirst(s, i, |Sweepable(s.db, limit)| + 1);
    c := SelectedRuns(s.calls, Act(s, Step(i)), i);
  }

  // ---- What a sweep leaves ----

  /** e - n, and nothing below zero. */
  function Less(e: nat, n: nat): nat { if n < e then e - n else 0 }

  /** What a sweep activates, and that exactly those leave the eligible set. */
  lemma SweepLeaves(db: Db, limit: nat)
    ensures var ids := Sweepable(db, limit);
            && Elems(ids) <= EligibleSet(db)
            && EligibleSet(SweepOnce(db, limit)) == EligibleSet(db) - Elems(ids)
            && (forall n :: n in Elems(ids) ==> IsActive(SweepOnce(db, limit), n))
            && (forall n, m :: n in Elems(ids) && m in EligibleSet(db) - Elems(ids) ==> Older(db, n, m))
            && |EligibleSet(SweepOnce(db, limit))| == Less(|EligibleSet(db)|, limit)
  {
    var ids := Sweepable(db, limit);
    OldestFirstIsOldest(db, EligibleSet(db), limit);
    ActivateAllChanges(db, ids, None);
    var after := SweepOnce(db, limit);
    forall n ensures Eligible(after, n) <==> Eligible(db, n) && n !in Elems(ids) {
      if n in db.noms && n !in Elems(ids) {
        assert after.noms[n] == db.noms[n];
      }
    }
    assert EligibleSet(after) == EligibleSet(db) - Elems(ids);
    assert |EligibleSet(db) - Elems(ids)| == |EligibleSet(db)| - |Elems(ids)|;
  }

  /** A nomination that a sweep leaves for later was created after each one it takes,
      or at the same time with a greater id. */
  lemma LeftAreLater(db: Db, limit: nat, n: Id, m: Id)
    requires n in Elems(Sweepable(db, limit)) && Eligible(db, m) && m !in Elems(Sweepable(db, limit))
    ensures n in db.noms && m in db.noms
    ensures db.noms[n].created < db.noms[m].created || (db.noms[n].created == db.noms[m].created && n < m)
  {
    SweepLeaves(db, limit);
    assert m in EligibleSet(db) - Elems(Sweepable(db, limit));
    assert n in EligibleSet(db) && Older(db, n, m);
  }

  lemma SweepShrinks(db: Db, limit: nat)
    ensures |EligibleSet(SweepOnce(db, limit))| == Less(|EligibleSet(db)|, limit)
  {
    SweepLeaves(db, limit);
  }

  lemma OneMoreSweep(e: nat, limit: nat, k: nat)
    requires k > 0
    ensures Less(Less(e, (k - 1) * limit), limit) == Less(e, k * limit)
  {
    assert k * limit == (k - 1) * limit + limit;
  }

  /** k sweeps with limit L over E eligible nominations leave E - kL of them. */
  lemma {:induction false} Backlog(db: Db, limit: nat, k: nat)
    requires limit >= 1
    ensures |EligibleSet(SweepTimes(db, limit, k))| == Less(|EligibleSet(db)|, k * limit)
  {
    if k == 0 {
      assert 0 * limit == 0;
    } else {
      Backlog(db, limit, k - 1);
      SweepShrinks(SweepTimes(db, limit, k - 1), limit);
      OneMoreSweep(|EligibleSet(db)|, limit, k);
    }
  }

  lemma CeilDiv(e: nat, limit: nat, k: nat)
    requires limit >= 1
    ensures k * limit >= e <==> k >= (e + limit - 1) / limit
  {
    var q := (e + limit - 1) / limit;
    assert q * limit <= e + limit - 1 < q * limit + limit;
    if k >= q {
      assert k * limit >= q * limit;
    } else {
      assert k * limit <= (q - 1) * limit == q * limit - limit;
    }
  }

  /** The backlog is drained by exactly ceil(E / L) sweeps, and by no fewer. */
  lemma DrainedAfter(db: Db, limit: nat, k: nat)
    requires limit >= 1
    ensures EligibleSet(SweepTimes(db, limit, k)) == {} <==> k >= (|EligibleSet(db)| + limit - 1) / limit
  {
    Backlog(db, limit, k);
    CeilDiv(|EligibleSet(db)|, limit, k);
  }

  // ---- What the locks do not cover ----

  const WAITING := Db(map[0 := Nomination(5, None, 0, Pending)], map[0 := {7}], {(5, 7)}, {5}, [], [],
      map[0 := 1], map[])

  lemma Selects(s: State)
    requires s == State(WAITING, [Fresh(Sweep(1), None)])
    ensures CanAct(s, Step(0)) && Act(s, Step(0)) == State(WAITING, [Act(s, Step(0)).calls[0]])
    ensures ReadyToCheck(Act(s, Step(0)), 0)
    ensures Act(s, Step(0)).calls[0].todo == [0] && Act(s, Step(0)).calls[0].earned == []
  {
    assert EligibleSet(WAITING) == {0};
    SweepBegins(s, 0, 1);
    OldestFirstIsOldest(WAITING, {0}, 1);
    var ids := Act(s, Step(0)).calls[0].todo;
    assert ids[0] in Elems(ids);
  }

  ghost predicate Earning(s: State) {
    && s.db == WAITING && |s.calls| == 1 && s.calls[0].pc == Rechecking && s.calls[0].actor == None
    && s.calls[0].wanted == [] && s.calls[0].todo == [] && s.calls[0].earned == [0]
  }

  lemma RecheckBuffersIt(s: State)
    requires ReadyToCheck(s, 0) && |s.calls| == 1 && s.db == WAITING
    requires s.calls[0].todo == [0] && s.calls[0].earned == []
    ensures CanAct(s, Step(0)) && Earning(Act(s, Step(0)))
  {
    assert Eligible(WAITING, 0);
  }

  /** The person leaves; COMMIT activates. */
  lemma LeavesAfterRecheck(s: State)
    requires Earning(s)
    ensures var r := Run(s, [SetPerson(5, false), Step(0)]);
            r.Some? && IsActive(r.value.db, 0) && 5 !in r.value.db.activePeople
  {
    var left := Act(s, SetPerson(5, false));
    RunFirst(s, SetPerson(5, false), [Step(0)]);
    RunFirst(left, Step(0), []);
    assert [0][..0] == [];
    assert ActivateAll(left.db, [0], None) == Activate(ActivateAll(left.db, [], None), 0, None);
  }

  /** Eligibility is decided when a candidate is rechecked: the person's row is
      not locked, so the nominee may be deactivated before the COMMIT that makes
      the nomination active. */
  lemma NomineeMayLeaveBeforeCommit(s: State)
    requires s == State(WAITING, [Fresh(Sweep(1), None)])
    ensures Initial(s) && Balanced(s.db)
    ensures var r := Run(s, [Step(0), Step(0), SetPerson(5, false), Step(0)]);
            r.Some? && IsActive(r.value.db, 0) && 5 !in r.value.db.activePeople
  {
    Selects(s);
    var selected := Act(s, Step(0));
    RunFirst(s, Step(0), [Step(0), SetPerson(5, false), Step(0)]);
    RecheckBuffersIt(selected);
    RunFirst(selected, Step(0), [SetPerson(5, false), Step(0)]);
    LeavesAfterRecheck(Act(selected, Step(0)));
  }
}
