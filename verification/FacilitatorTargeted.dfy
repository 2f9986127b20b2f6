/** Targeted activation calls that meet no lock: exactly what they activate. */
module FacilitatorTargeted {
  import opened Options
  import opened Facilitators
  import opened FacilitatorSafety
  import opened FacilitatorSweep

  /** Pending, with an active person and a non-empty requirement set, all completed. */
  predicate Deserves(db: Db, n: Id) {
    && n in db.noms && db.noms[n].status == Pending && db.noms[n].person in db.activePeople
    && n in db.required && db.required[n] != {}
    && forall c :: c in db.required[n] ==> (db.noms[n].person, c) in db.completed
  }

  /** The call has just arrived, and no other call holds a nomination. */
  ghost predicate Arrived(s: State, i: nat, sel: Selector, actor: Option<Id>) {
    && i < |s.calls| && s.calls[i] == Fresh(sel, actor)
    && forall j :: 0 <= j < |s.calls| && j != i ==> s.calls[j].held == {}
  }

  /** n steps of call i, none of any other, lead from s to t. */
  ghost predicate Follows(s: State, i: nat, n: nat, t: State) {
    && Run(s, Steps(i, n)) == Some(t) && |t.calls| == |s.calls|
    && forall j :: 0 <= j < |s.calls| && j != i ==> t.calls[j] == s.calls[j]
  }

  lemma FollowsFirst(s: State, i: nat, n: nat, t: State)
    requires i < |s.calls| && CanAct(s, Step(i)) && Follows(Act(s, Step(i)), i, n, t)
    ensures Follows(s, i, n + 1, t)
  {
    StepFirst(s, i, n);
  }

  lemma {:induction false} RunSplit(s: State, i: nat, a: nat, mid: State, b: nat)
    requires Run(s, Steps(i, a)) == Some(mid)
    ensures Run(s, Steps(i, a + b)) == Run(mid, Steps(i, b))
    decreases a
  {
    if a > 0 {
      assert Steps(i, a)[0] == Step(i);
      StepFirst(s, i, a - 1);
      StepFirst(s, i, a + b - 1);
      RunSplit(Act(s, Step(i)), i, a - 1, mid, b);
    }
  }

  lemma FollowsOn(s: State, i: nat, a: nat, mid: State, b: nat, t: State)
    requires Follows(s, i, a, mid) && Follows(mid, i, b, t)
    ensures Follows(s, i, a + b, t)
  {
    RunSplit(s, i, a, mid, b);
  }

  /** The call is done and has released its locks. */
  ghost predicate Ended(t: State, i: nat, after: Db) {
    t.db == after && i < |t.calls| && t.calls[i].pc == Done && t.calls[i].held == {}
  }

  // ---- Locking ----

  ghost predicate LockingAlone(s: State, i: nat) {
    && i < |s.calls| && s.calls[i].pc == Locking && s.calls[i].earned == []
    && (forall k :: 0 <= k < |s.calls[i].wanted| ==> Targets(s.db, s.calls[i].sel, s.calls[i].wanted[k]))
    && forall j :: 0 <= j < |s.calls| && j != i ==> s.calls[j].held == {}
  }

  ghost predicate Checking(s: State, i: nat, db: Db, todo: seq<Id>, actor: Option<Id>) {
    && s.db == db && i < |s.calls| && s.calls[i].pc == Rechecking && s.calls[i].wanted == []
    && s.calls[i].todo == todo && s.calls[i].earned == [] && s.calls[i].actor == actor
  }

  lemma LockFirst(s: State, i: nat)
    requires LockingAlone(s, i) && s.calls[i].wanted != []
    ensures CanAct(s, Step(i))
    ensures var (c, mid) := (s.calls[i], Act(s, Step(i)));
            && LockingAlone(mid, i) && mid.db == s.db && |mid.calls| == |s.calls|
            && mid.calls[i].wanted == c.wanted[1..] && mid.calls[i].todo == c.todo + [c.wanted[0]]
            && mid.calls[i].actor == c.actor
  {
    assert Targets(s.db, s.calls[i].sel, s.calls[i].wanted[0]);
  }

  /** Every candidate is locked, in order, before any is rechecked. */
  lemma {:induction false} LocksAll(s: State, i: nat) returns (t: State)
    requires LockingAlone(s, i)
    ensures Follows(s, i, |s.calls[i].wanted| + 1, t)
    ensures Checking(t, i, s.db, s.calls[i].todo + s.calls[i].wanted, s.calls[i].actor)
    decreases |s.calls[i].wanted|
  {
    var c, mid := s.calls[i], Act(s, Step(i));
    if c.wanted == [] {
      t := mid;
      assert c.todo + c.wanted == c.todo;
      assert Follows(mid, i, 0, mid);
    } else {
      LockFirst(s, i);
      t := LocksAll(mid, i);
      assert mid.calls[i].todo + mid.calls[i].wanted == c.todo + c.wanted;
    }
    FollowsFirst(s, i, |c.wanted|, t);
  }

  // ---- Rechecking ----

  function Deserving(db: Db, ids: seq<Id>): seq<Id> {
    if ids == [] then [] else (if Deserves(db, ids[0]) then [ids[0]] else []) + Deserving(db, ids[1..])
  }

  /** Without an actor, the call activates exactly the deserving candidates. */
  lemma {:induction false} ChecksAll(s: State, i: nat) returns (t: State)
    requires i < |s.calls| && s.calls[i].pc == Rechecking && s.calls[i].actor == None
    ensures Follows(s, i, |s.calls[i].todo| + 1, t)
    ensures Ended(t, i, ActivateAll(s.db, s.calls[i].earned + Deserving(s.db, s.calls[i].todo), None))
    decreases |s.calls[i].todo|
  {
    var c, mid := s.calls[i], Act(s, Step(i));
    if c.todo == [] {
      t := mid;
      assert c.earned + [] == c.earned;
      assert Follows(mid, i, 0, mid);
    } else {
      t := ChecksAll(mid, i);
      var n, rest := c.todo[0], Deserving(s.db, c.todo[1..]);
      assert Eligible(s.db, n) <==> Deserves(s.db, n);
      assert (c.earned + [n]) + rest == c.earned + ([n] + rest) && [] + rest == rest;
    }
    FollowsFirst(s, i, |c.todo|, t);
  }

  /** With one candidate and any actor: the actor must have nominated it. */
  lemma ChecksOne(s: State, i: nat, n: Id, actor: Option<Id>) returns (k: nat, t: State)
    requires Checking(s, i, s.db, [n], actor) && n in s.db.noms
    ensures Follows(s, i, k, t)
    ensures Ended(t, i, if Deserves(s.db, n) && (actor.Some? ==> s.db.noms[n].nominator == actor)
                        then Activate(s.db, n, actor) else s.db)
  {
    var mid := Act(s, Step(i));
    assert Eligible(s.db, n) <==> Deserves(s.db, n);
    if actor.Some? && s.db.noms[n].nominator != actor {
      k, t := 1, mid;
      assert Follows(mid, i, 0, mid);
      FollowsFirst(s, i, 0, mid);
    } else {
      k, t := 2, Act(mid, Step(i));
      assert [n][1..] == [] && [n][..0] == [] && [] + [n] == [n];
      assert ActivateAll(s.db, [], actor) == s.db;
      assert Follows(t, i, 0, t);
      FollowsFirst(mid, i, 0, t);
      FollowsFirst(s, i, 1, t);
    }
  }

  lemma ChecksNone(s: State, i: nat, actor: Option<Id>) returns (t: State)
    requires Checking(s, i, s.db, [], actor)
    ensures Follows(s, i, 1, t) && Ended(t, i, s.db)
  {
    t := Act(s, Step(i));
    assert Follows(t, i, 0, t);
    FollowsFirst(s, i, 0, t);
  }

  // ---- Whole calls ----

  lemma Locks(s: State, i: nat, sel: Selector, actor: Option<Id>) returns (k: nat, t: State)
    requires Arrived(s, i, sel, actor) && !sel.Sweep?
    ensures Follows(s, i, k, t)
    ensures Checking(t, i, s.db, OldestFirst(s.db, Matching(s.db, sel), |Matching(s.db, sel)|), actor)
  {
    var all := Matching(s.db, sel);
    var ids := OldestFirst(s.db, all, |all|);
    OldestFirstIsOldest(s.db, all, |all|);
    var mid := Act(s, Step(i));
    forall j | 0 <= j < |ids| ensures Targets(s.db, sel, ids[j]) {
      assert ids[j] in Elems(ids);
    }
    k := |ids| + 2;
    t := LocksAll(mid, i);
    assert [] + ids == ids;
    FollowsFirst(s, i, |ids| + 1, t);
  }

  lemma OneMatches(db: Db, n: Id)
    ensures OldestFirst(db, Matching(db, ById(n)), |Matching(db, ById(n))|) == if n in db.noms then [n] else []
  {
    if n in db.noms {
      assert Matching(db, ById(n)) == {n};
      assert OldestFirst(db, {n} - {n}, 0) == [];
    } else {
      assert Matching(db, ById(n)) == {};
    }
  }

  /** A call for one nomination that meets no lock activates it exactly when it
      deserves it and the actor, if one is named, is its nominator; otherwise it
      ends with the tables as they were. */
  lemma UncontendedById(s: State, i: nat, n: Id, actor: Option<Id>) returns (k: nat, t: State)
    requires Arrived(s, i, ById(n), actor)
    ensures Follows(s, i, k, t) && Ended(t, i, t.db)
    ensures if Deserves(s.db, n) && (actor.Some? ==> s.db.noms[n].nominator == actor)
            then Activated(s.db, t.db, n, actor) else t.db == s.db
  {
    var j, b;
    var mid;
    j, mid := Locks(s, i, ById(n), actor);
    OneMatches(s.db, n);
    if n in s.db.noms {
      b, t := ChecksOne(mid, i, n, actor);
    } else {
      b := 1;
      t := ChecksNone(mid, i, actor);
    }
    k := j + b;
    FollowsOn(s, i, j, mid, b, t);
  }

  /** The rows an activation writes, and that it changes no other. */
  ghost predicate Activated(before: Db, after: Db, n: Id, actor: Option<Id>)
    requires n in before.noms
  {
    var nomination := before.noms[n];
    && after.noms == before.noms[n := nomination.(status := Active)]
    && after.notices == before.notices + [nomination.person]
    && after.audits == before.audits + [Audit(n, nomination.person, actor)]
    && after.required == before.required && after.completed == before.completed
    && after.activePeople == before.activePeople
  }

  lemma {:induction false} DeservingAre(db: Db, ids: seq<Id>)
    ensures forall n :: n in Elems(Deserving(db, ids)) <==> n in Elems(ids) && Deserves(db, n)
  {
    if ids == [] {
      assert Elems([]) == {};
    } else {
      var rest := ids[1..];
      DeservingAre(db, rest);
      ElemsCons(ids[0], rest);
      ElemsCons(ids[0], Deserving(db, rest));
      assert ids == [ids[0]] + rest && [] + Deserving(db, rest) == Deserving(db, rest);
    }
  }

  /** A call for a newly completed course that meets no lock activates exactly the
      person's deserving nominations that require the course. */
  lemma UncontendedCourse(s: State, i: nat, person: Id, course: Id) returns (k: nat, t: State)
    requires Arrived(s, i, ByCourse(person, course), None)
    ensures Follows(s, i, k, t) && Ended(t, i, t.db)
    ensures t.db.noms.Keys == s.db.noms.Keys
    ensures forall n :: n in s.db.noms ==>
              t.db.noms[n] == if Deserves(s.db, n) && s.db.noms[n].person == person && course in s.db.required[n]
                              then s.db.noms[n].(status := Active) else s.db.noms[n]
    ensures t.db.required == s.db.required && t.db.completed == s.db.completed
    ensures t.db.activePeople == s.db.activePeople
  {
    var sel := ByCourse(person, course);
    var all := Matching(s.db, sel);
    var ids := OldestFirst(s.db, all, |all|);
    var j, mid := Locks(s, i, sel, None);
    t := ChecksAll(mid, i);
    k := j + (|ids| + 1);
    FollowsOn(s, i, j, mid, |ids| + 1, t);
    assert [] + Deserving(s.db, ids) == Deserving(s.db, ids);
    ActivateAllChanges(s.db, Deserving(s.db, ids), None);
    OldestFirstIsOldest(s.db, all, |all|);
    SameSize(Elems(ids), all);
    DeservingAre(s.db, ids);
  }

  lemma SameSize(a: set<Id>, b: set<Id>)
    requires a <= b && |a| == |b|
    ensures a == b
  {
    assert |b - a| == |b| - |a|;
  }
}
