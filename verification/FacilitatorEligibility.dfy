/** From the recheck that finds a nomination eligible to the COMMIT that activates
    it: what stays true in between, and exactly what does not. */
module FacilitatorEligibility {
  import opened Facilitators
  import opened FacilitatorSafety

  // ---- The states of a run ----

  ghost function At(s: State, schedule: seq<Action>, k: nat): State
    requires Run(s, schedule).Some? && k <= |schedule|
    decreases k
  {
    if k == 0 then s else At(Act(s, schedule[0]), schedule[1..], k - 1)
  }

  lemma {:induction false} AtStep(s: State, schedule: seq<Action>, k: nat)
    requires Run(s, schedule).Some? && k < |schedule|
    ensures CanAct(At(s, schedule, k), schedule[k])
    ensures At(s, schedule, k + 1) == Act(At(s, schedule, k), schedule[k])
    decreases k
  {
    if k > 0 {
      AtStep(Act(s, schedule[0]), schedule[1..], k - 1);
    }
  }

  lemma {:induction false} AtEnd(s: State, schedule: seq<Action>)
    requires Run(s, schedule).Some?
    ensures At(s, schedule, |schedule|) == Run(s, schedule).value
    decreases |schedule|
  {
    if schedule != [] {
      AtEnd(Act(s, schedule[0]), schedule[1..]);
    }
  }

  lemma {:induction false} AtInv(s: State, schedule: seq<Action>, k: nat)
    requires Inv(s) && Run(s, schedule).Some? && k <= |schedule|
    ensures Inv(At(s, schedule, k))
    decreases k
  {
    if k > 0 {
      ActKeepsInv(s, schedule[0]);
      AtInv(Act(s, schedule[0]), schedule[1..], k - 1);
    }
  }

  // ---- One step ----

  /** Call i has found nomination n eligible and buffered its activation. */
  ghost predicate Buffered(s: State, i: nat, n: Id) {
    i < |s.calls| && n in Elems(s.calls[i].earned)
  }

  /** The writer ends a fact that the recheck relied on and no lock protects. */
  predicate Disqualifies(db: Db, a: Action, n: Id) {
    && n in db.noms && n in db.required
    && match a
       case SetPerson(person, on) => person == db.noms[n].person && !on
       case SetCompleted(person, course, on) => person == db.noms[n].person && course in db.required[n] && !on
       case _ => false
  }

  /** What the row lock protects: nobody else touches the nomination. */
  lemma LockFreezes(s: State, a: Action, i: nat, n: Id)
    requires Inv(s) && CanAct(s, a) && Buffered(s, i, n) && Buffered(Act(s, a), i, n)
    requires n in s.db.required
    ensures var db := Act(s, a).db;
            && n in db.noms && db.noms[n] == s.db.noms[n]
            && n in db.required && db.required[n] == s.db.required[n]
  {
    assert CallOk(s.db, s.calls[i]);
    if a.Step? && s.calls[a.i].pc == Rechecking && s.calls[a.i].todo == [] {
      assert CallOk(s.db, s.calls[a.i]);
      assert a.i != i;
      ActivateAllEffect(s.db, s.calls[a.i].earned, s.calls[a.i].actor);
      assert s.calls[i].held !! s.calls[a.i].held;
    }
  }

  /** While the activation is buffered, a step keeps the nomination eligible
      exactly when it does not disqualify it. */
  lemma StaysEligibleIff(s: State, a: Action, i: nat, n: Id)
    requires Inv(s) && CanAct(s, a) && Buffered(s, i, n) && Buffered(Act(s, a), i, n)
    requires Eligible(s.db, n)
    ensures Eligible(Act(s, a).db, n) <==> !Disqualifies(s.db, a, n)
  {
    LockFreezes(s, a, i, n);
    if a.Step? && s.calls[a.i].pc == Rechecking && s.calls[a.i].todo == [] {
      ActivateAllEffect(s.db, s.calls[a.i].earned, s.calls[a.i].actor);
    }
  }

  /** An activation is buffered only by a recheck that finds it eligible. */
  lemma StepBuffers(s: State, a: Action, i: nat, n: Id)
    requires Inv(s) && CanAct(s, a) && !Buffered(s, i, n) && Buffered(Act(s, a), i, n)
    ensures a == Step(i) && s.calls[i].pc == Rechecking
    ensures s.calls[i].todo != [] && s.calls[i].todo[0] == n && Eligible(s.db, n)
  {
    if a == Step(i) {
      var c := s.calls[i];
      assert CallOk(s.db, c);
      if c.pc == Rechecking && c.todo != [] {
        RecheckBuffers(s.db, c, n);
      }
    }
  }

  lemma RecheckBuffers(db: Db, c: Call, n: Id)
    requires c.todo != [] && n !in Elems(c.earned) && n in Elems(Recheck(db, c).earned)
    ensures c.todo[0] == n && Eligible(db, n)
  {
    ElemsSnoc(c.earned, c.todo[0]);
  }

  /** A nomination turns active only at the COMMIT of a call that buffered it. */
  lemma StepActivates(s: State, a: Action, n: Id)
    requires Inv(s) && CanAct(s, a) && !IsActive(s.db, n) && IsActive(Act(s, a).db, n)
    ensures a.Step? && Buffered(s, a.i, n) && s.calls[a.i].pc == Rechecking && s.calls[a.i].todo == []
  {
    if a.Step? && s.calls[a.i].pc == Rechecking && s.calls[a.i].todo == [] {
      ActivateAllEffect(s.db, s.calls[a.i].earned, s.calls[a.i].actor);
    }
  }

  // ---- Over every run ----

  /** Call i rechecks n at step k and finds it eligible, keeps it buffered, and
      turns it active at step m. */
  ghost predicate Activation(s: State, schedule: seq<Action>, n: Id, i: nat, k: nat, m: nat) {
    && Run(s, schedule).Some? && k < m < |schedule|
    && schedule[k] == Step(i) && Eligible(At(s, schedule, k).db, n)
    && i < |At(s, schedule, k).calls| && At(s, schedule, k).calls[i].todo != []
    && At(s, schedule, k).calls[i].todo[0] == n
    && (forall j :: k < j <= m ==> Buffered(At(s, schedule, j), i, n))
    && schedule[m] == Step(i)
    && !IsActive(At(s, schedule, m).db, n) && IsActive(At(s, schedule, m + 1).db, n)
  }

  /** The step of the run at which the nomination turns active. */
  lemma TurnsActive(s: State, schedule: seq<Action>, n: Id) returns (m: nat)
    requires Run(s, schedule).Some?
    requires !IsActive(s.db, n) && IsActive(Run(s, schedule).value.db, n)
    ensures m < |schedule|
    ensures !IsActive(At(s, schedule, m).db, n) && IsActive(At(s, schedule, m + 1).db, n)
  {
    AtEnd(s, schedule);
    m := 0;
    while !IsActive(At(s, schedule, m + 1).db, n)
      invariant m < |schedule| && !IsActive(At(s, schedule, m).db, n)
      decreases |schedule| - m
    {
      m := m + 1;
    }
  }

  /** Where the activation that is buffered at m was buffered. */
  lemma BufferedFrom(s: State, schedule: seq<Action>, n: Id, i: nat, m: nat) returns (k: nat)
    requires Run(s, schedule).Some? && m <= |schedule|
    requires !Earned(s, n) && Buffered(At(s, schedule, m), i, n)
    ensures k < m && !Buffered(At(s, schedule, k), i, n)
    ensures forall j :: k < j <= m ==> Buffered(At(s, schedule, j), i, n)
  {
    var first := m;
    while Buffered(At(s, schedule, first - 1), i, n)
      invariant 0 < first <= m
      invariant forall j :: first <= j <= m ==> Buffered(At(s, schedule, j), i, n)
      decreases first
    {
      first := first - 1;
    }
    k := first - 1;
  }

  /** A nomination that was not active and is active at the end of a run was turned
      active by a call whose own recheck found it pending, with an active person
      and a non-empty requirement set that was all completed. */
  lemma ActiveWasEligible(s: State, schedule: seq<Action>, n: Id) returns (i: nat, k: nat, m: nat)
    requires Inv(s) && Run(s, schedule).Some?
    requires !Earned(s, n) && !IsActive(s.db, n) && IsActive(Run(s, schedule).value.db, n)
    ensures Activation(s, schedule, n, i, k, m)
    ensures var db := At(s, schedule, k).db;
            && n in db.noms && db.noms[n].status == Pending && db.noms[n].person in db.activePeople
            && n in db.required && db.required[n] != {}
            && forall c :: c in db.required[n] ==> (db.noms[n].person, c) in db.completed
  {
    m := TurnsActive(s, schedule, n);
    AtStep(s, schedule, m);
    AtInv(s, schedule, m);
    StepActivates(At(s, schedule, m), schedule[m], n);
    i := schedule[m].i;
    k := BufferedFrom(s, schedule, n, i, m);
    AtStep(s, schedule, k);
    AtInv(s, schedule, k);
    StepBuffers(At(s, schedule, k), schedule[k], i, n);
  }

  ghost predicate Disqualified(s: State, schedule: seq<Action>, n: Id, k: nat, m: nat)
    requires Run(s, schedule).Some? && m <= |schedule|
  {
    exists j :: k < j < m && Disqualifies(At(s, schedule, j).db, schedule[j], n)
  }

  /** Between its recheck and its COMMIT an activated nomination stays eligible
      exactly when no step in between deactivates the person or takes back a
      required completion. */
  lemma EligibleThroughoutIff(s: State, schedule: seq<Action>, n: Id, i: nat, k: nat, m: nat)
    requires Inv(s) && Activation(s, schedule, n, i, k, m)
    ensures (forall j :: k <= j <= m ==> Eligible(At(s, schedule, j).db, n)) <==> !Disqualified(s, schedule, n, k, m)
  {
    if !Disqualified(s, schedule, n, k, m) {
      forall j | k <= j <= m ensures Eligible(At(s, schedule, j).db, n) {
        EligibleUntil(s, schedule, n, i, k, m, j);
      }
    } else {
      var j :| k < j < m && Disqualifies(At(s, schedule, j).db, schedule[j], n);
      AtStep(s, schedule, j);
      AtInv(s, schedule, j);
      if Eligible(At(s, schedule, j).db, n) {
        StaysEligibleIff(At(s, schedule, j), schedule[j], i, n);
        assert !Eligible(At(s, schedule, j + 1).db, n);
      }
    }
  }

  lemma RecheckChangesNothing(s: State, schedule: seq<Action>, n: Id, i: nat, k: nat, m: nat)
    requires Inv(s) && Activation(s, schedule, n, i, k, m)
    ensures At(s, schedule, k + 1).db == At(s, schedule, k).db
  {
    AtStep(s, schedule, k);
    AtInv(s, schedule, k);
    var c := At(s, schedule, k).calls[i];
    assert CallOk(At(s, schedule, k).db, c);
    assert Buffered(At(s, schedule, k + 1), i, n);
  }

  /** A step between the recheck and the COMMIT, not disqualifying, keeps the
      nomination eligible. */
  lemma EligibleNext(s: State, schedule: seq<Action>, n: Id, i: nat, k: nat, m: nat, j: nat)
    requires Inv(s) && Activation(s, schedule, n, i, k, m) && k < j < m
    requires Eligible(At(s, schedule, j).db, n) && !Disqualifies(At(s, schedule, j).db, schedule[j], n)
    ensures Eligible(At(s, schedule, j + 1).db, n)
  {
    AtStep(s, schedule, j);
    AtInv(s, schedule, j);
    assert Buffered(At(s, schedule, j), i, n) && Buffered(At(s, schedule, j + 1), i, n);
    StaysEligibleIff(At(s, schedule, j), schedule[j], i, n);
  }

  /** Eligible at every state from the recheck on, if nothing disqualifies. */
  lemma {:induction false} EligibleUntil(s: State, schedule: seq<Action>, n: Id, i: nat, k: nat, m: nat, j: nat)
    requires Inv(s) && Activation(s, schedule, n, i, k, m) && k <= j <= m
    requires !Disqualified(s, schedule, n, k, m)
    ensures Eligible(At(s, schedule, j).db, n)
    decreases j
  {
    if j == k + 1 {
      RecheckChangesNothing(s, schedule, n, i, k, m);
    } else if j > k {
      EligibleUntil(s, schedule, n, i, k, m, j - 1);
      EligibleNext(s, schedule, n, i, k, m, j - 1);
    }
  }
}
