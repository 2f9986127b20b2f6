/** `enroll_applicant` and `try_auto_enroll`: an onboarding applicant becomes an
    enrolled learner, reusing whatever person, enrolment, grant and credential
    rows already exist. */
module Enrolment {
  import opened Options
  import opened AdmissionsLedger
  import opened AdmissionsWriters

  datatype Person = Person(id: Id, email: string)
  datatype Enrollment = Enrollment(cohort: Id, person: Id, track: Option<Id>, role: string, status: string)

  /** The tables enrolment writes: `people`, `enrollments`, the student rows of
      `person_roles`, and the persons with a `user_credentials` row. */
  datatype Tables = Tables(people: seq<Person>, enrollments: seq<Enrollment>, students: seq<Id>,
      credentials: set<Id>, next: Id)

  // ---- The row operations ----

  /** The first row with the email, or |people|. */
  function PersonAt(people: seq<Person>, email: string): (i: nat)
    ensures i <= |people|
    ensures i < |people| ==> people[i].email == email
    ensures forall j :: 0 <= j < i ==> people[j].email != email
  {
    if people == [] || people[0].email == email then 0 else 1 + PersonAt(people[1..], email)
  }

  function EnrollmentAt(rows: seq<Enrollment>, cohort: Id, person: Id): (i: nat)
    ensures i <= |rows|
    ensures i < |rows| ==> rows[i].cohort == cohort && rows[i].person == person
    ensures forall j :: 0 <= j < i ==> !(rows[j].cohort == cohort && rows[j].person == person)
  {
    if rows == [] || (rows[0].cohort == cohort && rows[0].person == person) then 0
    else 1 + EnrollmentAt(rows[1..], cohort, person)
  }

  function WithPerson(t: Tables, email: string): Tables {
    if PersonAt(t.people, email) < |t.people| then t
    else t.(people := t.people + [Person(t.next, email)], next := t.next + 1)
  }

  function WithEnrollment(t: Tables, cohort: Id, person: Id, track: Option<Id>): Tables {
    var i := EnrollmentAt(t.enrollments, cohort, person);
    if i == |t.enrollments| then
      t.(enrollments := t.enrollments + [Enrollment(cohort, person, track, "student", "active")])
    else
      t.(enrollments := t.enrollments[i := t.enrollments[i].(track := track)])
  }

  function WithStudent(t: Tables, person: Id): Tables {
    if person in t.students then t else t.(students := t.students + [person])
  }

  // ---- enroll_applicant and try_auto_enroll ----

  function EnrolCause(actor: Option<Id>): Cause {
    Cause("", if actor.Some? then "admin" else "onboarding", actor)
  }

  function Enrol(t: Tables, r: Record, cohort: Id, actor: Option<Id>, active: Intakes): Result<(Tables, Record)> {
    if r.status != Onboarding then Err(NotOnboarding)
    else if !TasksComplete(r.tasks) then Err(TasksOutstanding)
    else if r.cohort != Some(cohort) then Err(WrongCohort)
    else if !HasActiveIntake(r, active) then Err(NoActiveIntake)
    else
      var t1 := WithPerson(t, r.email);
      var person := t1.people[PersonAt(t.people, r.email)].id;
      var moved := Move(r.(person := Some(person)), Enrolled, EnrolCause(actor), active);
      if moved.Err? then Err(moved.error)
      else Ok((WithEnrollment(t1, cohort, person, r.track), moved.value))
  }

  datatype Report = NotYet | EnrolledNow(invite: bool)

  function AutoEnrol(t: Tables, r: Record, active: Intakes): Result<(Tables, Record, Report)> {
    if r.status != Onboarding || r.cohort.None? || !TasksComplete(r.tasks) then Ok((t, r, NotYet))
    else
      var enrolled := Enrol(t, r, r.cohort.value, None, active);
      if enrolled.Err? then Err(enrolled.error)
      else
        var (t1, r1) := enrolled.value;
        if r1.person.None? then Ok((t1, r1, NotYet))
        else Ok((WithStudent(t1, r1.person.value), r1, EnrolledNow(r1.person.value !in t1.credentials)))
  }

  // ---- The register ----

  class Register {
    var people: seq<Person>
    var enrollments: seq<Enrollment>
    var students: seq<Id>
    var credentials: set<Id>
    var next: Id

    constructor ()
      ensures Contents() == Tables([], [], [], {}, 0)
    {
      people, enrollments, students, credentials, next := [], [], [], {}, 0;
    }

    function Contents(): Tables
      reads this
    {
      Tables(people, enrollments, students, credentials, next)
    }

    method EnsurePerson(email: string) returns (person: Id)
      modifies this
      ensures Contents() == WithPerson(old(Contents()), email)
      ensures person == people[PersonAt(old(people), email)].id
    {
      var i := 0;
      while i < |people| && people[i].email != email
        invariant i <= |people|
        invariant forall j :: 0 <= j < i ==> people[j].email != email
      {
        i := i + 1;
      }
      if i == |people| {
        people := people + [Person(next, email)];
        next := next + 1;
      }
      person := people[i].id;
    }

    method EnsureEnrollment(cohort: Id, person: Id, track: Option<Id>)
      modifies this`enrollments
      ensures Contents() == WithEnrollment(old(Contents()), cohort, person, track)
    {
      var i := 0;
      while i < |enrollments| && !(enrollments[i].cohort == cohort && enrollments[i].person == person)
        invariant i <= |enrollments|
        invariant forall j :: 0 <= j < i ==> !(enrollments[j].cohort == cohort && enrollments[j].person == person)
      {
        i := i + 1;
      }
      assert i == EnrollmentAt(enrollments, cohort, person);
      if i == |enrollments| {
        enrollments := enrollments + [Enrollment(cohort, person, track, "student", "active")];
      } else if enrollments[i].track != track {
        enrollments := enrollments[i := enrollments[i].(track := track)];
      } else {
        assert enrollments[i := enrollments[i].(track := track)] == enrollments;
      }
    }

    method EnrolApplicant(applicant: Applicant, target: Id, actor: Option<Id>, active: Intakes)
      returns (error: Option<Error>)
      modifies this, applicant
      ensures error.None? ==>
        Enrol(old(Contents()), old(applicant.View()), target, actor, active) == Ok((Contents(), applicant.View()))
      ensures error.Some? ==> Enrol(old(Contents()), old(applicant.View()), target, actor, active) == Err(error.value)
      ensures error.Some? ==> Contents() == old(Contents()) && applicant.View() == old(applicant.View())
    {
      if applicant.status != Onboarding { return Some(NotOnboarding); }
      if !TasksComplete(applicant.tasks) { return Some(TasksOutstanding); }
      if applicant.cohort != Some(target) { return Some(WrongCohort); }
      if !HasActiveIntake(applicant.View(), active) { return Some(NoActiveIntake); }
      var id := EnsurePerson(applicant.email);
      EnsureEnrollment(target, id, applicant.track);
      applicant.person := Some(id);
      error := applicant.MoveTo(Enrolled, EnrolCause(actor), active);
    }

    method TryAutoEnrol(applicant: Applicant, active: Intakes) returns (error: Option<Error>, report: Report)
      modifies this, applicant
      ensures error.None? ==>
                AutoEnrol(old(Contents()), old(applicant.View()), active) == Ok((Contents(), applicant.View(), report))
      ensures error.Some? ==> AutoEnrol(old(Contents()), old(applicant.View()), active) == Err(error.value)
      ensures error.Some? ==> Contents() == old(Contents()) && applicant.View() == old(applicant.View())
    {
      report := NotYet;
      if applicant.status != Onboarding || applicant.cohort.None? { return None, report; }
      if !TasksComplete(applicant.tasks) { return None, report; }
      error := EnrolApplicant(applicant, applicant.cohort.value, None, active);
      if error.Some? { return; }
      if applicant.person.None? { return; }
      if applicant.person.value !in students {
        students := students + [applicant.person.value];
      }
      report := EnrolledNow(applicant.person.value !in credentials);
    }
  }

  // ---- What one report establishes ----

  /** The uniqueness the tables keep: one person per email and per id, one
      enrolment per cohort and person, one student grant per person. */
  ghost predicate Unique(t: Tables) {
    && (forall i, j :: 0 <= i < j < |t.people| ==>
          t.people[i].email != t.people[j].email && t.people[i].id != t.people[j].id)
    && (forall i :: 0 <= i < |t.people| ==> t.people[i].id < t.next)
    && (forall i, j :: 0 <= i < j < |t.enrollments| ==>
          !(t.enrollments[i].cohort == t.enrollments[j].cohort && t.enrollments[i].person == t.enrollments[j].person))
    && (forall i, j :: 0 <= i < j < |t.students| ==> t.students[i] != t.students[j])
  }

  function Count<T>(s: seq<T>, p: T -> bool): nat {
    if s == [] then 0 else Count(s[..|s| - 1], p) + if p(s[|s| - 1]) then 1 else 0
  }

  lemma {:induction false} CountOne<T>(s: seq<T>, p: T -> bool, i: nat)
    requires i < |s| && forall j :: 0 <= j < |s| ==> (p(s[j]) <==> j == i)
    ensures Count(s, p) == 1
    decreases |s|
  {
    var rest := s[..|s| - 1];
    if i < |rest| {
      CountOne(rest, p, i);
    } else {
      CountZero(rest, p);
    }
  }

  lemma {:induction false} CountZero<T>(s: seq<T>, p: T -> bool)
    requires forall j :: 0 <= j < |s| ==> !p(s[j])
    ensures Count(s, p) == 0
    decreases |s|
  {
    if s != [] {
      CountZero(s[..|s| - 1], p);
    }
  }

  /** One person for the email, one enrolment in the cohort on the track. */
  ghost predicate OneLearner(t: Tables, email: string, person: Id, cohort: Id) {
    && Count(t.people, (p: Person) => p.email == email) == 1
    && Person(person, email) in t.people
    && Count(t.enrollments, (e: Enrollment) => e.cohort == cohort && e.person == person) == 1
  }

  ghost predicate OnTrack(t: Tables, person: Id, cohort: Id, track: Option<Id>) {
    forall e :: e in t.enrollments && e.cohort == cohort && e.person == person ==> e.track == track
  }

  /** Existing rows stay: people and grants keep their positions, and an
      enrolment keeps its cohort, person, role and status. */
  ghost predicate Reuses(before: Tables, after: Tables) {
    && before.people <= after.people
    && before.students <= after.students
    && |before.enrollments| <= |after.enrollments|
    && (forall i :: 0 <= i < |before.enrollments| ==>
          after.enrollments[i].(track := before.enrollments[i].track) == before.enrollments[i])
  }

  lemma OneRowEach(t: Tables, email: string, i: nat, k: nat)
    requires Unique(t) && i < |t.people| && t.people[i].email == email
    requires k < |t.enrollments| && t.enrollments[k].person == t.people[i].id
    ensures OneLearner(t, email, t.people[i].id, t.enrollments[k].cohort)
    ensures OnTrack(t, t.people[i].id, t.enrollments[k].cohort, t.enrollments[k].track)
  {
    var person, cohort := t.people[i].id, t.enrollments[k].cohort;
    CountOne(t.people, (p: Person) => p.email == email, i);
    CountOne(t.enrollments, (e: Enrollment) => e.cohort == cohort && e.person == person, k);
  }

  lemma PersonKeepsUnique(t: Tables, email: string)
    requires Unique(t)
    ensures Unique(WithPerson(t, email))
  {
  }

  lemma EnrollmentKeepsUnique(t: Tables, cohort: Id, person: Id, track: Option<Id>)
    requires Unique(t)
    ensures Unique(WithEnrollment(t, cohort, person, track))
  {
  }

  lemma StudentKeepsUnique(t: Tables, person: Id)
    requires Unique(t)
    ensures Unique(WithStudent(t, person))
  {
  }

  lemma EnrollmentReuses(t: Tables, cohort: Id, person: Id, track: Option<Id>)
    ensures Reuses(t, WithEnrollment(t, cohort, person, track))
  {
  }

  lemma TablesAfter(t: Tables, email: string, cohort: Id, track: Option<Id>)
    requires Unique(t)
    ensures var t1 := WithPerson(t, email);
            var person := t1.people[PersonAt(t.people, email)].id;
            var t2 := WithEnrollment(t1, cohort, person, track);
            Unique(t2) && Reuses(t, t2) && OneLearner(t2, email, person, cohort) && OnTrack(t2, person, cohort, track)
  {
    var t1 := WithPerson(t, email);
    var i := PersonAt(t.people, email);
    var person := t1.people[i].id;
    var t2 := WithEnrollment(t1, cohort, person, track);
    assert t1.people[i].email == email;
    PersonKeepsUnique(t, email);
    EnrollmentKeepsUnique(t1, cohort, person, track);
    EnrollmentReuses(t1, cohort, person, track);
    var k := EnrollmentAt(t1.enrollments, cohort, person);
    assert t2.enrollments[k].cohort == cohort && t2.enrollments[k].person == person && t2.enrollments[k].track == track;
    assert t2.people == t1.people;
    OneRowEach(t2, email, i, k);
  }

  /** The event an enrolment leaves: by an administrator, or by the checklist. */
  function Enrolling(actor: Option<Id>): Event {
    match actor
    case Some(_) => Event(Onboarding, Enrolled, "", "admin", actor)
    case None => Event(Onboarding, Enrolled, "", "onboarding", None)
  }

  /** The applicant's row and the tables after a successful enrolment. */
  lemma EnrolRows(t: Tables, r: Record, cohort: Id, actor: Option<Id>, active: Intakes)
    requires Enrol(t, r, cohort, actor, active).Ok?
    ensures var (t', r') := Enrol(t, r, cohort, actor, active).value;
            var t1 := WithPerson(t, r.email);
            var person := t1.people[PersonAt(t.people, r.email)].id;
            && r.status == Onboarding && TasksComplete(r.tasks) && r.cohort == Some(cohort)
            && t' == WithEnrollment(t1, cohort, person, r.track)
            && t'.students == t.students && t'.credentials == t.credentials
            && r' == r.(status := Enrolled, person := Some(person),
                        ledger := r.ledger + [Enrolling(actor)])
  {
  }

  /** What `enroll_applicant` leaves behind when it succeeds. */
  lemma EnrolEstablishes(t: Tables, r: Record, cohort: Id, actor: Option<Id>, active: Intakes)
    requires Unique(t) && Enrol(t, r, cohort, actor, active).Ok?
    ensures var (t', r') := Enrol(t, r, cohort, actor, active).value;
            && Unique(t') && Reuses(t, t') && t'.students == t.students && t'.credentials == t.credentials
            && r.status == Onboarding && TasksComplete(r.tasks) && r.cohort == Some(cohort)
            && r' == r.(status := Enrolled, person := r'.person,
                        ledger := r.ledger + [Enrolling(actor)])
            && r'.person.Some?
            && OneLearner(t', r.email, r'.person.value, cohort)
            && OnTrack(t', r'.person.value, cohort, r.track)
  {
    EnrolRows(t, r, cohort, actor, active);
    TablesAfter(t, r.email, cohort, r.track);
  }
}
