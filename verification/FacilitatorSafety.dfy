/** Every interleaving of activation calls and other writers. */
module FacilitatorSafety {
  import opened Options
  import opened Facilitators

  // ---- Consequences ----

  function AuditsOf(audits: seq<Audit>, n: Id): nat {
    if audits == [] then 0
    else AuditsOf(audits[..|audits| - 1], n) + if audits[|audits| - 1].nomination == n then 1 else 0
  }

  function AuditsFor(audits: seq<Audit>, person: Id): nat {
    if audits == [] then 0
    else AuditsFor(audits[..|audits| - 1], person) + if audits[|audits| - 1].person == person then 1 else 0
  }

  function NoticesTo(notices: seq<Id>, person: Id): nat {
    if notices == [] then 0
    else NoticesTo(notices[..|notices| - 1], person) + if notices[|notices| - 1] == person then 1 else 0
  }

  predicate IsPending(db: Db, n: Id) { n in db.noms && db.noms[n].status == Pending }

  /** One audit row per activation, at most one activation per pending period,
      and as many notices to a person as activations of their nominations. */
  ghost predicate Balanced(db: Db) {
    && (forall n :: AuditsOf(db.audits, n) == Count(db.activations, n))
    && (forall n :: Count(db.activations, n) + (if IsPending(db, n) then 1 else 0) <= Count(db.openings, n))
    && (forall p :: NoticesTo(db.notices, p) == AuditsFor(db.audits, p))
  }

  ghost predicate CallOk(db: Db, c: Call) {
    && c.held <= db.noms.Keys
    && Elems(c.earned) + Elems(c.todo) <= c.held
    && (forall n :: n in Elems(c.earned) ==> db.noms[n].status == Pending)
    && (c.pc == Begin || c.pc == Locking ==> c.earned == [])
    && (c.pc == Begin || c.pc == Done ==> c.held == {})
  }

  ghost predicate Inv(s: State) {
    && Balanced(s.db)
    && (forall i :: 0 <= i < |s.calls| ==> CallOk(s.db, s.calls[i]))
    && (forall i, j :: 0 <= i < j < |s.calls| ==> s.calls[i].held !! s.calls[j].held)
  }

  // ---- One activation ----

  lemma AppendCounts(db: Db, n: Id, actor: Option<Id>, x: Id)
    requires IsPending(db, n)
    ensures AuditsOf(Activate(db, n, actor).audits, x) == AuditsOf(db.audits, x) + if x == n then 1 else 0
    ensures AuditsFor(Activate(db, n, actor).audits, x) == 
            AuditsFor(db.audits, x) + if x == db.noms[n].person then 1 else 0
    ensures NoticesTo(Activate(db, n, actor).notices, x) == 
            NoticesTo(db.notices, x) + if x == db.noms[n].person then 1 else 0
  {
    var d := Activate(db, n, actor);
    assert d.audits[..|db.audits|] == db.audits && d.notices[..|db.notices|] == db.notices;
  }

  lemma ActivateBalanced(db: Db, n: Id, actor: Option<Id>)
    requires Balanced(db)
    ensures Balanced(Activate(db, n, actor))
  {
    if IsPending(db, n) {
      var d := Activate(db, n, actor);
      forall x
        ensures AuditsOf(d.audits, x) == Count(d.activations, x)
        ensures NoticesTo(d.notices, x) == AuditsFor(d.audits, x)
        ensures Count(d.activations, x) + (if IsPending(d, x) then 1 else 0) <= Count(d.openings, x)
      {
        AppendCounts(db, n, actor, x);
        assert AuditsOf(db.audits, x) == Count(db.activations, x);
        assert NoticesTo(db.notices, x) == AuditsFor(db.audits, x);
        assert Count(db.activations, x) + (if IsPending(db, x) then 1 else 0) <= Count(db.openings, x);
      }
    }
  }

  ghost predicate SameBut(a: Db, b: Db, ns: set<Id>) {
    && a.noms.Keys == b.noms.Keys
    && (forall n :: n in a.noms && n !in ns ==> b.noms[n] == a.noms[n])
    && (forall n :: n in a.noms && n in ns ==>
          b.noms[n] == if a.noms[n].status == Pending then a.noms[n].(status := Active) else a.noms[n])
    && b == a.(noms := b.noms, notices := b.notices, audits := b.audits, activations := b.activations)
  }

  /** COMMIT turns exactly the pending nominations among `ns` active. */
  lemma ActivateAllEffect(db: Db, ns: seq<Id>, actor: Option<Id>)
    requires Balanced(db)
    ensures Balanced(ActivateAll(db, ns, actor))
    ensures SameBut(db, ActivateAll(db, ns, actor), Elems(ns))
  {
    ActivateAllBalanced(db, ns, actor);
    ActivateAllChanges(db, ns, actor);
  }

  lemma {:induction false} ActivateAllBalanced(db: Db, ns: seq<Id>, actor: Option<Id>)
    requires Balanced(db)
    ensures Balanced(ActivateAll(db, ns, actor))
  {
    if ns != [] {
      var k := |ns| - 1;
      ActivateAllBalanced(db, ns[..k], actor);
      ActivateBalanced(ActivateAll(db, ns[..k], actor), ns[k], actor);
    }
  }

  lemma {:induction false} ActivateAllChanges(db: Db, ns: seq<Id>, actor: Option<Id>)
    ensures SameBut(db, ActivateAll(db, ns, actor), Elems(ns))
  {
    if ns != [] {
      var k := |ns| - 1;
      ActivateAllChanges(db, ns[..k], actor);
      ActivateChanges(db, ActivateAll(db, ns[..k], actor), Elems(ns[..k]), ns[k], actor);
      ElemsLast(ns);
    }
  }

  lemma ActivateChanges(db: Db, mid: Db, done: set<Id>, n: Id, actor: Option<Id>)
    requires SameBut(db, mid, done)
    ensures SameBut(db, Activate(mid, n, actor), done + {n})
  {
  }

  lemma ElemsLast(ns: seq<Id>)
    requires ns != []
    ensures Elems(ns) == Elems(ns[..|ns| - 1]) + {ns[|ns| - 1]}
  {
    var k := |ns| - 1;
    forall x ensures x in Elems(ns) <==> x in Elems(ns[..k]) + {ns[k]} {
      if x in Elems(ns) {
        var i :| 0 <= i < |ns| && ns[i] == x;
        assert i < k ==> ns[..k][i] == x;
      }
      if x in Elems(ns[..k]) {
        var i :| 0 <= i < k && ns[..k][i] == x;
        assert ns[i] == x;
      }
    }
  }

  lemma ElemsSnoc(ns: seq<Id>, n: Id)
    ensures Elems(ns + [n]) == Elems(ns) + {n}
  {
    ElemsLast(ns + [n]);
    assert (ns + [n])[..|ns|] == ns;
  }

  // ---- Steps ----

  lemma BegunOk(s: State, i: nat)
    requires Inv(s) && i < |s.calls| && s.calls[i].pc == Begin
    ensures CallOk(s.db, Begun(s, i))
    ensures forall j :: 0 <= j < |s.calls| && j != i ==> Begun(s, i).held !! s.calls[j].held
  {
    var c := s.calls[i];
    assert CallOk(s.db, c);
    if c.sel.Sweep? {
      var free := Unlocked(s, i);
      OldestFirstIsOldest(s.db, free, c.sel.limit);
      assert forall j, n :: 0 <= j < |s.calls| && j != i && n in s.calls[j].held ==> LockedByOther(s, i, n);
      assert Begun(s, i).held <= free;
    }
  }

  lemma LockNextOk(s: State, i: nat)
    requires Inv(s) && i < |s.calls| && s.calls[i].pc == Locking && s.calls[i].wanted != []
    requires !LockedByOther(s, i, s.calls[i].wanted[0])
    ensures CallOk(s.db, LockNext(s.db, s.calls[i]))
    ensures forall j :: 0 <= j < |s.calls| && j != i ==> LockNext(s.db, s.calls[i]).held !! s.calls[j].held
  {
    var c := s.calls[i];
    assert CallOk(s.db, c);
    ElemsSnoc(c.todo, c.wanted[0]);
    forall j | 0 <= j < |s.calls| && j != i ensures c.held !! s.calls[j].held && c.wanted[0] !in s.calls[j].held {
    }
  }

  lemma HaltOk(db: Db, c: Call)
    ensures CallOk(db, Halt(c))
  {
    assert Elems([]) == {};
  }

  lemma RecheckOk(db: Db, c: Call)
    requires CallOk(db, c) && c.pc == Rechecking && c.todo != []
    ensures CallOk(db, Recheck(db, c)) && Recheck(db, c).held <= c.held
  {
    var n := c.todo[0];
    ElemsCons(n, c.todo[1..]);
    assert c.todo == [n] + c.todo[1..];
    ElemsSnoc(c.earned, n);
    HaltOk(db, c);
  }

  lemma Replace(s: State, i: nat, c: Call)
    requires Inv(s) && i < |s.calls| && CallOk(s.db, c)
    requires forall j :: 0 <= j < |s.calls| && j != i ==> c.held !! s.calls[j].held
    ensures Inv(s.(calls := s.calls[i := c]))
  {
  }

  lemma CommitOk(s: State, i: nat)
    requires Inv(s) && i < |s.calls| && s.calls[i].pc == Rechecking && s.calls[i].todo == []
    ensures Inv(State(ActivateAll(s.db, s.calls[i].earned, s.calls[i].actor), s.calls[i := Halt(s.calls[i])]))
  {
    var c := s.calls[i];
    var db := ActivateAll(s.db, c.earned, c.actor);
    ActivateAllEffect(s.db, c.earned, c.actor);
    HaltOk(db, c);
    forall j | 0 <= j < |s.calls| && j != i ensures CallOk(db, s.calls[j]) {
      assert CallOk(s.db, s.calls[j]) && CallOk(s.db, c);
      assert s.calls[j].held !! c.held;
    }
  }

  /** Other writers respect the row locks. */
  lemma OtherWritersOk(s: State, a: Action)
    requires Inv(s) && CanAct(s, a) && !a.Step? && !a.Rollback?
    ensures Inv(Act(s, a))
  {
    var r := Act(s, a);
    forall i | 0 <= i < |s.calls| ensures CallOk(r.db, r.calls[i]) {
      assert CallOk(s.db, s.calls[i]);
    }
    forall n ensures Count(r.db.activations, n) + (if IsPending(r.db, n) then 1 else 0) <= Count(r.db.openings, n) {
      assert Count(s.db.activations, n) + (if IsPending(s.db, n) then 1 else 0) <= Count(s.db.openings, n);
    }
  }

  lemma ActKeepsInv(s: State, a: Action)
    requires Inv(s) && CanAct(s, a)
    ensures Inv(Act(s, a))
  {
    match a {
      case Rollback(i) =>
        HaltOk(s.db, s.calls[i]);
        Replace(s, i, Halt(s.calls[i]));
      case Step(i) =>
        var c := s.calls[i];
        assert CallOk(s.db, c);
        match c.pc {
          case Begin =>
            BegunOk(s, i);
            Replace(s, i, Begun(s, i));
          case Locking =>
            if c.wanted == [] {
              Replace(s, i, c.(pc := Rechecking));
            } else {
              LockNextOk(s, i);
              Replace(s, i, LockNext(s.db, c));
            }
          case Rechecking =>
            if c.todo != [] {
              RecheckOk(s.db, c);
              Replace(s, i, Recheck(s.db, c));
            } else {
              CommitOk(s, i);
            }
        }
      case _ => OtherWritersOk(s, a);
    }
  }

  lemma {:induction false} RunKeepsInv(s: State, schedule: seq<Action>)
    requires Inv(s) && Run(s, schedule).Some?
    ensures Inv(Run(s, schedule).value)
    decreases |schedule|
  {
    if schedule != [] {
      ActKeepsInv(s, schedule[0]);
      RunKeepsInv(Act(s, schedule[0]), schedule[1..]);
    }
  }

  ghost predicate Initial(s: State) {
    forall i :: 0 <= i < |s.calls| ==> s.calls[i] == Fresh(s.calls[i].sel, s.calls[i].actor)
  }

  /** In every interleaving: exactly one audit row per activation, at most one
      activation for each time a nomination became pending, and exactly one
      notice to the nominee per activation. */
  lemma OneActivationPerNomination(s: State, schedule: seq<Action>)
    requires Initial(s) && Balanced(s.db) && Run(s, schedule).Some?
    ensures Balanced(Run(s, schedule).value.db)
  {
    assert Elems([]) == {};
    RunKeepsInv(s, schedule);
  }

  // ---- Only the eligible ----

  ghost predicate Earned(s: State, n: Id) {
    exists i :: 0 <= i < |s.calls| && n in Elems(s.calls[i].earned)
  }

  ghost predicate IsActive(db: Db, n: Id) { n in db.noms && db.noms[n].status == Active }

  lemma RecheckEarns(db: Db, c: Call, n: Id)
    requires c.todo != [] && n in Elems(Recheck(db, c).earned)
    ensures n in Elems(c.earned) || Eligible(db, n)
  {
    ElemsSnoc(c.earned, c.todo[0]);
    assert Elems([]) == {};
  }

  /** What call i has buffered after a step, it had buffered, or it was eligible. */
  lemma CallEarns(s: State, a: Action, i: nat, n: Id)
    requires Inv(s) && CanAct(s, a) && i < |s.calls| && n in Elems(Act(s, a).calls[i].earned)
    ensures n in Elems(s.calls[i].earned) || Eligible(s.db, n)
  {
    assert Elems([]) == {};
    if a == Step(i) && s.calls[i].pc == Rechecking && s.calls[i].todo != [] {
      RecheckEarns(s.db, s.calls[i], n);
    }
  }

  /** A buffered activation was eligible when it was buffered, and a nomination
      turns active only through a buffered activation. */
  lemma StepEarns(s: State, a: Action, n: Id)
    requires Inv(s) && CanAct(s, a)
    ensures Earned(Act(s, a), n) && !Earned(s, n) ==> Eligible(s.db, n)
    ensures IsActive(Act(s, a).db, n) && !IsActive(s.db, n) ==> Earned(s, n)
  {
    var r := Act(s, a);
    if a.Step? && s.calls[a.i].pc == Rechecking && s.calls[a.i].todo == [] {
      ActivateAllEffect(s.db, s.calls[a.i].earned, s.calls[a.i].actor);
    }
    if i :| 0 <= i < |r.calls| && n in Elems(r.calls[i].earned) {
      CallEarns(s, a, i, n);
    }
  }
}
