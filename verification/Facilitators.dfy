/** `activate_eligible_facilitator_nominations`: concurrent callers, each one
    selecting and locking candidates, rechecking every one, and publishing the
    activations with their notification and audit rows at COMMIT. */
module Facilitators {
  import opened Options

  type Id = nat

  datatype Status = Pending | Active | Revoked
  datatype Nomination = Nomination(person: Id, nominator: Option<Id>, created: int, status: Status)

  /** Notification rows name only the person; audit rows name the nomination. */
  datatype Audit = Audit(nomination: Id, person: Id, actor: Option<Id>)

  /** `openings` and `activations` count, per nomination, how often it became
      pending and how often it became active; no statement reads them. */
  datatype Db = Db(
    noms: map<Id, Nomination>,
    required: map<Id, set<Id>>,
    completed: set<(Id, Id)>,
    activePeople: set<Id>,
    notices: seq<Id>,
    audits: seq<Audit>,
    openings: map<Id, nat>,
    activations: map<Id, nat>)

  // ---- Arguments ----

  datatype Args = Args(nomination: Option<Id>, person: Option<Id>, course: Option<Id>, limit: Option<int>,
      actor: Option<Id>)

  datatype Selector = ById(id: Id) | ByCourse(person: Id, course: Id) | Sweep(limit: nat)

  /** The argument checks, in the order the function makes them. */
  function Select(args: Args, people: set<Id>): Option<Selector> {
    if args.actor.Some? && args.actor.value !in people then None
    else if args.actor.Some? && args.nomination.None? then None
    else if args.nomination.Some? then
      if args.person.Some? || args.course.Some? || args.limit.Some? then None else Some(ById(args.nomination.value))
    else if args.person.Some? || args.course.Some? then
      if args.person.None? || args.course.None? || args.limit.Some? then None
      else Some(ByCourse(args.person.value, args.course.value))
    else if args.limit.None? || args.limit.value < 1 || args.limit.value > 1000 then None
    else Some(Sweep(args.limit.value))
  }

  /** An accepted call uses exactly one selector, and only a call for one
      nomination names an actor. */
  lemma SelectorsAreExclusive(args: Args, people: set<Id>)
    ensures Select(args, people).Some? <==>
            && (args.actor.Some? ==> args.actor.value in people && args.nomination.Some?)
            && (|| (args.nomination.Some? && args.person.None? && args.course.None? && args.limit.None?)
                || (args.nomination.None? && args.person.Some? && args.course.Some? && args.limit.None?)
                || (args.nomination.None? && args.person.None? && args.course.None? && args.limit.Some?
                    && 1 <= args.limit.value <= 1000))
  {
  }

  // ---- Eligibility and order ----

  predicate Eligible(db: Db, n: Id) {
    && n in db.noms && db.noms[n].status == Pending
    && db.noms[n].person in db.activePeople
    && n in db.required && db.required[n] != {}
    && forall c :: c in db.required[n] ==> (db.noms[n].person, c) in db.completed
  }

  function EligibleSet(db: Db): (s: set<Id>)
    ensures forall n :: n in s <==> Eligible(db, n)
  {
    set n | n in db.noms && Eligible(db, n)
  }

  /** ORDER BY created_at, id */
  predicate Older(db: Db, a: Id, b: Id)
    requires a in db.noms && b in db.noms
  {
    db.noms[a].created < db.noms[b].created || (db.noms[a].created == db.noms[b].created && a <= b)
  }

  predicate IsOldest(db: Db, s: set<Id>, m: Id)
    requires s <= db.noms.Keys
  {
    m in s && forall n :: n in s ==> Older(db, m, n)
  }

  lemma {:induction false} OldestExists(db: Db, s: set<Id>) returns (m: Id)
    requires s != {} && s <= db.noms.Keys
    ensures IsOldest(db, s, m)
    decreases |s|
  {
    var x :| x in s;
    m := x;
    var rest := s - {x};
    if rest != {} {
      m := OldestExists(db, rest);
      if Older(db, x, m) {
        m := x;
      }
    }
    forall n | n in s ensures Older(db, m, n) {
      assert n == x || n in rest;
    }
  }

  ghost function Oldest(db: Db, s: set<Id>): (m: Id)
    requires s != {} && s <= db.noms.Keys
    ensures IsOldest(db, s, m)
  {
    assert exists m :: IsOldest(db, s, m) by {
      var m := OldestExists(db, s);
    }
    var m :| IsOldest(db, s, m);
    m
  }

  function Elems(ids: seq<Id>): set<Id> {
    set i | 0 <= i < |ids| :: ids[i]
  }

  /** ORDER BY created_at, id LIMIT limit */
  ghost function OldestFirst(db: Db, s: set<Id>, limit: nat): (ids: seq<Id>)
    requires s <= db.noms.Keys
    decreases limit
  {
    if limit == 0 || s == {} then []
    else [Oldest(db, s)] + OldestFirst(db, s - {Oldest(db, s)}, limit - 1)
  }

  /** min(limit, |s|) different members of s in order, none of them younger than
      a member left out. */
  lemma {:induction false} OldestFirstIsOldest(db: Db, s: set<Id>, limit: nat)
    requires s <= db.noms.Keys
    ensures var ids := OldestFirst(db, s, limit);
            && |ids| == (if limit < |s| then limit else |s|) == |Elems(ids)|
            && Elems(ids) <= s
            && (forall i, j :: 0 <= i < j < |ids| ==> ids[i] != ids[j])
            && (forall n, m :: n in Elems(ids) && m in s - Elems(ids) ==> Older(db, n, m))
    decreases limit
  {
    if limit > 0 && s != {} {
      var m := Oldest(db, s);
      OldestFirstIsOldest(db, s - {m}, limit - 1);
      OldestThenRest(db, s, m, OldestFirst(db, s - {m}, limit - 1));
    } else {
      assert Elems([]) == {};
    }
  }

  lemma OldestThenRest(db: Db, s: set<Id>, m: Id, rest: seq<Id>)
    requires s <= db.noms.Keys && IsOldest(db, s, m) && Elems(rest) <= s - {m}
    requires forall i, j :: 0 <= i < j < |rest| ==> rest[i] != rest[j]
    requires forall n, k :: n in Elems(rest) && k in s - {m} - Elems(rest) ==> Older(db, n, k)
    ensures var ids := [m] + rest;
            && |Elems(ids)| == 1 + |Elems(rest)| && Elems(ids) <= s
            && (forall i, j :: 0 <= i < j < |ids| ==> ids[i] != ids[j])
            && (forall n, k :: n in Elems(ids) && k in s - Elems(ids) ==> Older(db, n, k))
  {
    ElemsCons(m, rest);
    forall i | 0 <= i < |rest| ensures rest[i] != m {
      assert rest[i] in Elems(rest);
    }
  }

  lemma ElemsCons(m: Id, rest: seq<Id>)
    ensures Elems([m] + rest) == {m} + Elems(rest)
  {
    var ids := [m] + rest;
    forall x ensures x in Elems(ids) <==> x in {m} + Elems(rest) {
      if x == m {
        assert ids[0] == m;
      }
      if x in Elems(rest) {
        var i :| 0 <= i < |rest| && rest[i] == x;
        assert ids[i + 1] == x;
      }
      if x in Elems(ids) {
        var i :| 0 <= i < |ids| && ids[i] == x;
        assert i > 0 ==> rest[i - 1] == x;
      }
    }
  }

  // ---- Calls as transactions ----

  /** Candidates are locked, one after the other for a targeted call; `todo` are
      the locked candidates not yet rechecked, `earned` the activations buffered. */
  datatype Pc = Begin | Locking | Rechecking | Done

  datatype Call = Call(
    sel: Selector,
    actor: Option<Id>,
    pc: Pc,
    wanted: seq<Id>,
    held: set<Id>,
    todo: seq<Id>,
    earned: seq<Id>)

  datatype State = State(db: Db, calls: seq<Call>)

  function Fresh(sel: Selector, actor: Option<Id>): Call {
    Call(sel, actor, Begin, [], {}, [], [])
  }

  /** The WHERE clause of a targeted call. */
  predicate Targets(db: Db, sel: Selector, n: Id) {
    && n in db.noms
    && match sel
       case ById(id) => n == id
       case ByCourse(person, course) =>
         && db.noms[n].person == person && db.noms[n].status == Pending
         && n in db.required && course in db.required[n]
       case Sweep(_) => Eligible(db, n)
  }

  ghost predicate LockedByOther(s: State, i: nat, n: Id) {
    exists j :: 0 <= j < |s.calls| && j != i && n in s.calls[j].held
  }

  ghost function Unlocked(s: State, i: nat): (r: set<Id>)
    ensures r <= s.db.noms.Keys
  {
    set n | n in s.db.noms && Eligible(s.db, n) && !LockedByOther(s, i, n)
  }

  ghost function Matching(db: Db, sel: Selector): (r: set<Id>)
    ensures r <= db.noms.Keys
  {
    set n | n in db.noms && Targets(db, sel, n)
  }

  function Halt(c: Call): Call {
    c.(pc := Done, wanted := [], held := {}, todo := [], earned := [])
  }

  /** One UPDATE ... WHERE status = 'pending' with its two INSERTs. */
  function Activate(db: Db, n: Id, actor: Option<Id>): Db {
    if n in db.noms && db.noms[n].status == Pending then
      db.(noms := db.noms[n := db.noms[n].(status := Active)],
          notices := db.notices + [db.noms[n].person],
          audits := db.audits + [Audit(n, db.noms[n].person, actor)],
          activations := db.activations[n := Count(db.activations, n) + 1])
    else db
  }

  function Count(m: map<Id, nat>, n: Id): nat {
    if n in m then m[n] else 0
  }

  function ActivateAll(db: Db, ns: seq<Id>, actor: Option<Id>): Db {
    if ns == [] then db else Activate(ActivateAll(db, ns[..|ns| - 1], actor), ns[|ns| - 1], actor)
  }

  datatype Action =
    | Step(i: nat)
    | Rollback(i: nat)
    // Other writers, each in a transaction of its own.
    | SetPerson(person: Id, on: bool)
    | SetCompleted(person: Id, course: Id, on: bool)
    | Nominate(n: Id, nomination: Nomination, courses: set<Id>)
    | Revoke(n: Id)

  ghost predicate AnyLock(s: State, n: Id) {
    exists j :: 0 <= j < |s.calls| && n in s.calls[j].held
  }

  ghost predicate CanAct(s: State, a: Action) {
    match a
    case Step(i) =>
      && i < |s.calls| && s.calls[i].pc != Done
      && (s.calls[i].pc == Locking && s.calls[i].wanted != [] ==> !LockedByOther(s, i, s.calls[i].wanted[0]))
    case Rollback(i) => i < |s.calls| && s.calls[i].pc != Done
    case Nominate(n, nomination, _) =>
      && nomination.status == Pending
      && (n in s.db.noms ==>
            && s.db.noms[n].status == Revoked && !AnyLock(s, n)
            // A renomination keeps the row's person and its created_at.
            && s.db.noms[n].person == nomination.person && s.db.noms[n].created == nomination.created)
    case Revoke(n) => n in s.db.noms && s.db.noms[n].status != Revoked && !AnyLock(s, n)
    case _ => true
  }

  ghost function Begun(s: State, i: nat): Call
    requires i < |s.calls|
  {
    var c := s.calls[i];
    match c.sel
    case Sweep(limit) =>
      var ids := OldestFirst(s.db, Unlocked(s, i), limit);
      c.(pc := Rechecking, held := Elems(ids), todo := ids)
    case _ =>
      var all := Matching(s.db, c.sel);
      c.(pc := Locking, wanted := OldestFirst(s.db, all, |all|))
  }

  /** Takes the next lock; a row that stopped matching while waiting is skipped. */
  function LockNext(db: Db, c: Call): Call
    requires c.wanted != []
  {
    var n := c.wanted[0];
    var d := c.(wanted := c.wanted[1..]);
    if Targets(db, c.sel, n) then d.(held := c.held + {n}, todo := c.todo + [n]) else d
  }

  /** One iteration of the loop over the locked candidates. */
  function Recheck(db: Db, c: Call): Call
    requires c.todo != []
  {
    var n := c.todo[0];
    if c.actor.Some? && n in db.noms && db.noms[n].nominator != c.actor then Halt(c)
    else if Eligible(db, n) then c.(todo := c.todo[1..], earned := c.earned + [n])
    else c.(todo := c.todo[1..])
  }

  ghost function Act(s: State, a: Action): State
    requires CanAct(s, a)
  {
    match a
    case Rollback(i) => s.(calls := s.calls[i := Halt(s.calls[i])])
    case SetPerson(p, on) => s.(db := s.db.(activePeople := if on then s.db.activePeople
        + {p} else s.db.activePeople - {p}))
    case SetCompleted(p, c, on) =>
      s.(db := s.db.(completed := if on then s.db.completed + {(p, c)} else s.db.completed - {(p, c)}))
    case Revoke(n) => s.(db := s.db.(noms := s.db.noms[n := s.db.noms[n].(status := Revoked)]))
    case Nominate(n, nomination, courses) =>
      s.(db := s.db.(noms := s.db.noms[n := nomination], required := s.db.required[n := courses],
                     openings := s.db.openings[n := Count(s.db.openings, n) + 1]))
    case Step(i) =>
      var c := s.calls[i];
      match c.pc
      case Begin => s.(calls := s.calls[i := Begun(s, i)])
      case Locking =>
        s.(calls := s.calls[i := if c.wanted == [] then c.(pc := Rechecking) else LockNext(s.db, c)])
      case Rechecking =>
        if c.todo != [] then s.(calls := s.calls[i := Recheck(s.db, c)])
        else State(ActivateAll(s.db, c.earned, c.actor), s.calls[i := Halt(c)])
      case Done => s
  }

  ghost function Run(s: State, schedule: seq<Action>): Option<State>
    decreases |schedule|
  {
    if schedule == [] then Some(s)
    else if CanAct(s, schedule[0]) then Run(Act(s, schedule[0]), schedule[1..])
    else None
  }
}
