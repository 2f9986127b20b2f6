/** Who activated a nomination: a call that names an actor activates only what the
    actor nominated, and the audit row names that actor. */
module FacilitatorActors {
  import opened Options
  import opened Facilitators
  import opened FacilitatorSafety
  import opened FacilitatorEligibility

  // ---- What a call with an actor buffers ----

  ghost predicate OwnsEarned(db: Db, c: Call) {
    c.actor.Some? ==> forall n :: n in Elems(c.earned) ==> n in db.noms && db.noms[n].nominator == c.actor
  }

  ghost predicate ActorsOk(s: State) {
    forall i :: 0 <= i < |s.calls| ==> OwnsEarned(s.db, s.calls[i])
  }

  lemma RecheckOwns(db: Db, c: Call)
    requires c.todo != [] && OwnsEarned(db, c)
    ensures OwnsEarned(db, Recheck(db, c))
  {
    ElemsSnoc(c.earned, c.todo[0]);
    assert Elems([]) == {};
  }

  lemma CallOwns(s: State, a: Action, i: nat)
    requires CanAct(s, a) && i < |s.calls| && OwnsEarned(s.db, s.calls[i])
    ensures OwnsEarned(s.db, Act(s, a).calls[i]) && Act(s, a).calls[i].actor == s.calls[i].actor
  {
    assert Elems([]) == {};
    if a == Step(i) && s.calls[i].pc == Rechecking && s.calls[i].todo != [] {
      RecheckOwns(s.db, s.calls[i]);
    }
  }

  /** Nobody changes the nominator of a nomination whose row is locked. */
  lemma LockKeepsNominator(s: State, a: Action, i: nat, n: Id)
    requires Inv(s) && CanAct(s, a) && i < |s.calls| && n in s.calls[i].held
    ensures n in s.db.noms && n in Act(s, a).db.noms
    ensures Act(s, a).db.noms[n].nominator == s.db.noms[n].nominator
  {
    assert CallOk(s.db, s.calls[i]);
    assert AnyLock(s, n);
    if a.Step? && s.calls[a.i].pc == Rechecking && s.calls[a.i].todo == [] {
      ActivateAllChanges(s.db, s.calls[a.i].earned, s.calls[a.i].actor);
    }
  }

  lemma ActKeepsActors(s: State, a: Action)
    requires Inv(s) && ActorsOk(s) && CanAct(s, a)
    ensures ActorsOk(Act(s, a))
  {
    var r := Act(s, a);
    ActKeepsInv(s, a);
    forall i | 0 <= i < |r.calls| ensures OwnsEarned(r.db, r.calls[i]) {
      CallOwns(s, a, i);
      forall n | r.calls[i].actor.Some? && n in Elems(r.calls[i].earned)
        ensures n in r.db.noms && r.db.noms[n].nominator == r.calls[i].actor
      {
        EarnedWasHeld(s, a, i, n);
        LockKeepsNominator(s, a, i, n);
      }
    }
  }

  lemma EarnedWasHeld(s: State, a: Action, i: nat, n: Id)
    requires Inv(s) && CanAct(s, a) && i < |s.calls| && n in Elems(Act(s, a).calls[i].earned)
    ensures n in s.calls[i].held
  {
    assert CallOk(s.db, s.calls[i]);
    assert Elems([]) == {};
    if a == Step(i) && s.calls[i].pc == Rechecking && s.calls[i].todo != [] {
      ElemsSnoc(s.calls[i].earned, s.calls[i].todo[0]);
      assert s.calls[i].todo[0] in Elems(s.calls[i].todo);
    }
  }

  lemma {:induction false} AtActors(s: State, schedule: seq<Action>, k: nat)
    requires Inv(s) && ActorsOk(s) && Run(s, schedule).Some? && k <= |schedule|
    ensures ActorsOk(At(s, schedule, k)) && |At(s, schedule, k).calls| == |s.calls|
    ensures forall i :: 0 <= i < |s.calls| ==> At(s, schedule, k).calls[i].actor == s.calls[i].actor
    decreases k
  {
    if k > 0 {
      ActKeepsInv(s, schedule[0]);
      ActKeepsActors(s, schedule[0]);
      forall i | 0 <= i < |s.calls| ensures Act(s, schedule[0]).calls[i].actor == s.calls[i].actor {
        CallOwns(s, schedule[0], i);
      }
      AtActors(Act(s, schedule[0]), schedule[1..], k - 1);
    }
  }

  // ---- The rows a COMMIT writes ----

  lemma {:induction false} AuditRows(db: Db, ns: seq<Id>, actor: Option<Id>)
    ensures var d := ActivateAll(db, ns, actor);
            && db.audits <= d.audits
            && (forall k :: |db.audits| <= k < |d.audits| ==> d.audits[k].actor == actor)
            && (forall n :: n in Elems(ns) && IsPending(db, n) ==>
                  exists k :: |db.audits| <= k < |d.audits| && d.audits[k] == Audit(n, db.noms[n].person, actor))
  {
    if ns == [] {
      assert Elems([]) == {};
    } else {
      var k := |ns| - 1;
      var mid := ActivateAll(db, ns[..k], actor);
      AuditRows(db, ns[..k], actor);
      ActivateAllChanges(db, ns[..k], actor);
      ElemsLast(ns);
      forall n | n in Elems(ns) && IsPending(db, n)
        ensures var d := ActivateAll(db, ns, actor);
                exists j :: |db.audits| <= j < |d.audits| && d.audits[j] == Audit(n, db.noms[n].person, actor)
      {
        var d := ActivateAll(db, ns, actor);
        if n in Elems(ns[..k]) {
          var j :| |db.audits| <= j < |mid.audits| && mid.audits[j] == Audit(n, db.noms[n].person, actor);
          assert d.audits[j] == mid.audits[j];
        } else {
          assert d.audits[|mid.audits|] == Audit(n, db.noms[n].person, actor);
        }
      }
    }
  }

  // ---- Over every run ----

  /** The row that the COMMIT at step m adds for n names the call's actor. */
  ghost predicate Audited(s: State, schedule: seq<Action>, n: Id, m: nat, actor: Option<Id>)
    requires Run(s, schedule).Some? && m < |schedule|
  {
    var (before, after) := (At(s, schedule, m).db, At(s, schedule, m + 1).db);
    && n in before.noms && before.audits <= after.audits
    && (exists k :: |before.audits| <= k < |after.audits|
          && after.audits[k] == Audit(n, before.noms[n].person, actor))
    && forall k :: |before.audits| <= k < |after.audits| ==> after.audits[k].actor == actor
  }

  /** Over every run: a nomination that turns active is turned active by a call that
      names no actor, or by one whose actor nominated it; and the audit rows written
      with it name that call's actor. */
  lemma ActivatedByNominator(s: State, schedule: seq<Action>, n: Id) returns (i: nat, m: nat)
    requires Initial(s) && Balanced(s.db) && Run(s, schedule).Some?
    requires !IsActive(s.db, n) && IsActive(Run(s, schedule).value.db, n)
    ensures i < |s.calls| && m < |schedule| && schedule[m] == Step(i)
    ensures !IsActive(At(s, schedule, m).db, n) && IsActive(At(s, schedule, m + 1).db, n)
    ensures n in At(s, schedule, m).db.noms
    ensures s.calls[i].actor.Some? ==> At(s, schedule, m).db.noms[n].nominator == s.calls[i].actor
    ensures Audited(s, schedule, n, m, s.calls[i].actor)
  {
    assert Elems([]) == {};
    m := TurnsActive(s, schedule, n);
    AtStep(s, schedule, m);
    AtInv(s, schedule, m);
    var here := At(s, schedule, m);
    StepActivates(here, schedule[m], n);
    i := schedule[m].i;
    AtActors(s, schedule, m);
    assert CallOk(here.db, here.calls[i]) && OwnsEarned(here.db, here.calls[i]);
    AuditRows(here.db, here.calls[i].earned, here.calls[i].actor);
  }
}
