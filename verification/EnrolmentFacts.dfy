/** What the enrolment tables say about one learner, and how each writer of those
    tables changes it. */
module EnrolmentFacts {
  import opened Options
  import opened AdmissionsLedger
  import opened Enrolment

  // ---- Lookups ----

  function EmailOf(people: seq<Person>, id: Id): Option<string> {
    if people == [] then None else if people[0].id == id then Some(people[0].email) else EmailOf(people[1..], id)
  }

  function TrackOf(rows: seq<Enrollment>, cohort: Id, person: Id): Option<Option<Id>> {
    if rows == [] then None
    else if rows[0].cohort == cohort && rows[0].person == person then Some(rows[0].track)
    else TrackOf(rows[1..], cohort, person)
  }

  // ---- Other writers ----

  /** Deleting a person cascades to enrolments, grants and credentials. */
  function WithoutPerson(t: Tables, id: Id): Tables {
    t.(people := DropPerson(t.people, id), enrollments := DropEnrollments(t.enrollments, id),
       students := DropStudent(t.students, id), credentials := t.credentials - {id})
  }

  function DropPerson(people: seq<Person>, id: Id): seq<Person> {
    if people == [] then []
    else if people[0].id == id then DropPerson(people[1..], id)
    else [people[0]] + DropPerson(people[1..], id)
  }

  function DropEnrollments(rows: seq<Enrollment>, id: Id): seq<Enrollment> {
    if rows == [] then []
    else if rows[0].person == id then DropEnrollments(rows[1..], id)
    else [rows[0]] + DropEnrollments(rows[1..], id)
  }

  function DropStudent(students: seq<Id>, id: Id): seq<Id> {
    if students == [] then []
    else if students[0] == id then DropStudent(students[1..], id)
    else [students[0]] + DropStudent(students[1..], id)
  }

  function WithRole(t: Tables, id: Id, student: bool): Tables {
    if EmailOf(t.people, id).None? then t
    else if student then WithStudent(t, id) else t.(students := DropStudent(t.students, id))
  }

  predicate EmailFree(people: seq<Person>, id: Id, email: string) {
    forall i :: 0 <= i < |people| && people[i].email == email ==> people[i].id == id
  }

  function WithEmail(t: Tables, id: Id, email: string): Tables {
    if !EmailFree(t.people, id, email) then t
    else t.(people := Renamed(t.people, id, email))
  }

  function Renamed(people: seq<Person>, id: Id, email: string): (r: seq<Person>)
    ensures |r| == |people|
    ensures forall i :: 0 <= i < |r| ==> r[i] == if people[i].id == id then Person(id, email) else people[i]
  {
    seq(|people|, i requires 0 <= i < |people| => if people[i].id == id then Person(id, email) else people[i])
  }

  // ---- Lookups after a write ----

  lemma {:induction false} EmailAt(people: seq<Person>, id: Id)
    ensures EmailOf(people, id).Some? ==> Person(id, EmailOf(people, id).value) in people
    ensures EmailOf(people, id).None? ==> forall p :: p in people ==> p.id != id
  {
    if people != [] && people[0].id != id {
      EmailAt(people[1..], id);
    }
  }

  lemma EmailIs(t: Tables, id: Id, email: string)
    requires Unique(t)
    ensures EmailOf(t.people, id) == Some(email) <==> Person(id, email) in t.people
  {
    EmailAt(t.people, id);
  }

  lemma {:induction false} TrackAt(rows: seq<Enrollment>, cohort: Id, person: Id)
    ensures TrackOf(rows, cohort, person) ==
            var i := EnrollmentAt(rows, cohort, person); if i < |rows| then Some(rows[i].track) else None
  {
    if rows != [] && !(rows[0].cohort == cohort && rows[0].person == person) {
      TrackAt(rows[1..], cohort, person);
    }
  }

  /** Enrolling sets the track of its own cohort and person, and no other. */
  lemma {:induction false} TrackAfter(rows: seq<Enrollment>, c: Id, p: Id, track: Option<Id>, cohort: Id, person: Id)
    ensures var i := EnrollmentAt(rows, c, p);
            var after := if i == |rows| then rows + [Enrollment(c, p, track, "student", "active")]
                         else rows[i := rows[i].(track := track)];
            TrackOf(after, cohort, person) ==
            if c == cohort && p == person then Some(track) else TrackOf(rows, cohort, person)
  {
    if rows == [] {
      assert [Enrollment(c, p, track, "student", "active")][1..] == [];
    } else {
      var i := EnrollmentAt(rows, c, p);
      var row := Enrollment(c, p, track, "student", "active");
      if rows[0].cohort == c && rows[0].person == p {
        assert rows[0 := rows[0].(track := track)][1..] == rows[1..];
      } else {
        TrackAfter(rows[1..], c, p, track, cohort, person);
        if i == |rows| {
          assert (rows + [row])[1..] == rows[1..] + [row];
        } else {
          assert rows[i := rows[i].(track := track)][1..] == rows[1..][i - 1 := rows[i].(track := track)];
        }
      }
    }
  }

  lemma EnrollmentSetsTrack(t: Tables, c: Id, p: Id, track: Option<Id>, cohort: Id, person: Id)
    ensures TrackOf(WithEnrollment(t, c, p, track).enrollments, cohort, person) ==
            if c == cohort && p == person then Some(track) else TrackOf(t.enrollments, cohort, person)
  {
    TrackAfter(t.enrollments, c, p, track, cohort, person);
  }

  lemma {:induction false} EmailAfterAppend(people: seq<Person>, p: Person, id: Id)
    ensures EmailOf(people + [p], id) ==
            if EmailOf(people, id).Some? then EmailOf(people, id) else if p.id == id then Some(p.email) else None
  {
    if people == [] {
      assert [p][1..] == [] && people + [p] == [p];
    } else {
      assert (people + [p])[1..] == people[1..] + [p];
      EmailAfterAppend(people[1..], p, id);
    }
  }

  lemma {:induction false} EmailAfterDrop(people: seq<Person>, gone: Id, id: Id)
    ensures EmailOf(DropPerson(people, gone), id) == if id == gone then None else EmailOf(people, id)
  {
    if people != [] {
      EmailAfterDrop(people[1..], gone, id);
      if people[0].id != gone {
        assert ([people[0]] + DropPerson(people[1..], gone))[1..] == DropPerson(people[1..], gone);
      }
    }
  }

  lemma {:induction false} TrackAfterDrop(rows: seq<Enrollment>, gone: Id, cohort: Id, person: Id)
    ensures TrackOf(DropEnrollments(rows, gone), cohort, person) ==
            if person == gone then None else TrackOf(rows, cohort, person)
  {
    if rows != [] {
      TrackAfterDrop(rows[1..], gone, cohort, person);
      if rows[0].person != gone {
        assert ([rows[0]] + DropEnrollments(rows[1..], gone))[1..] == DropEnrollments(rows[1..], gone);
      }
    }
  }

  lemma {:induction false} StudentAfterDrop(students: seq<Id>, gone: Id, id: Id)
    ensures id in DropStudent(students, gone) <==> id in students && id != gone
  {
    if students != [] {
      StudentAfterDrop(students[1..], gone, id);
    }
  }

  lemma {:induction false} EmailAfterRename(people: seq<Person>, id: Id, email: string, person: Id)
    ensures EmailOf(Renamed(people, id, email), person) ==
            if person == id && EmailOf(people, id).Some? then Some(email) else EmailOf(people, person)
  {
    if people != [] {
      EmailAfterRename(people[1..], id, email, person);
      assert Renamed(people, id, email)[1..] == Renamed(people[1..], id, email);
    }
  }

  // ---- Uniqueness ----

  ghost predicate UniquePeople(people: seq<Person>) {
    forall i, j :: 0 <= i < j < |people| ==> people[i].email != people[j].email && people[i].id != people[j].id
  }

  ghost predicate UniqueRows(rows: seq<Enrollment>) {
    forall i, j :: 0 <= i < j < |rows| ==> !(rows[i].cohort == rows[j].cohort && rows[i].person == rows[j].person)
  }

  ghost predicate UniqueIds(ids: seq<Id>) { forall i, j :: 0 <= i < j < |ids| ==> ids[i] != ids[j] }

  lemma {:induction false} DropPersonUnique(people: seq<Person>, id: Id)
    requires UniquePeople(people)
    ensures UniquePeople(DropPerson(people, id))
    ensures forall p :: p in DropPerson(people, id) ==> p in people
  {
    if people != [] {
      DropPersonUnique(people[1..], id);
      forall p | p in people[1..] ensures p.email != people[0].email && p.id != people[0].id {
        var i :| 0 <= i < |people| - 1 && people[1..][i] == p;
        assert people[i + 1] == p;
      }
    }
  }

  lemma {:induction false} DropEnrollmentsUnique(rows: seq<Enrollment>, id: Id)
    requires UniqueRows(rows)
    ensures UniqueRows(DropEnrollments(rows, id))
    ensures forall e :: e in DropEnrollments(rows, id) ==> e in rows
  {
    if rows != [] {
      DropEnrollmentsUnique(rows[1..], id);
      forall e | e in rows[1..] ensures !(rows[0].cohort == e.cohort && rows[0].person == e.person) {
        var i :| 0 <= i < |rows| - 1 && rows[1..][i] == e;
        assert rows[i + 1] == e;
      }
    }
  }

  lemma {:induction false} DropStudentUnique(students: seq<Id>, id: Id)
    requires UniqueIds(students)
    ensures UniqueIds(DropStudent(students, id))
    ensures forall x :: x in DropStudent(students, id) ==> x in students
  {
    if students != [] {
      DropStudentUnique(students[1..], id);
      forall x | x in students[1..] ensures x != students[0] {
        var i :| 0 <= i < |students| - 1 && students[1..][i] == x;
        assert students[i + 1] == x;
      }
      var d := DropStudent(students[1..], id);
      forall j | 0 <= j < |d| ensures d[j] != students[0] {
        assert d[j] in d;
      }
    }
  }

  lemma UniqueIff(t: Tables)
    ensures Unique(t) <==>
            && UniquePeople(t.people) && UniqueRows(t.enrollments) && UniqueIds(t.students)
            && forall p :: p in t.people ==> p.id < t.next
  {
  }

  lemma RemovalKeepsUnique(t: Tables, id: Id)
    requires Unique(t)
    ensures Unique(WithoutPerson(t, id))
  {
    UniqueIff(t);
    DropPersonUnique(t.people, id);
    DropEnrollmentsUnique(t.enrollments, id);
    DropStudentUnique(t.students, id);
    UniqueIff(WithoutPerson(t, id));
  }

  /** After a removal nothing is known of the person, and nothing else has changed. */
  lemma RemovalForgets(t: Tables, id: Id, other: Id, cohort: Id)
    ensures var r := WithoutPerson(t, id);
            && EmailOf(r.people, other) == (if other == id then None else EmailOf(t.people, other))
            && TrackOf(r.enrollments, cohort, other) ==
               (if other == id then None else TrackOf(t.enrollments, cohort, other))
            && (other in r.students <==> other in t.students && other != id)
            && (other in r.credentials <==> other in t.credentials && other != id)
  {
    EmailAfterDrop(t.people, id, other);
    TrackAfterDrop(t.enrollments, id, cohort, other);
    StudentAfterDrop(t.students, id, other);
  }

  lemma RoleKeepsUnique(t: Tables, id: Id, student: bool)
    requires Unique(t)
    ensures Unique(WithRole(t, id, student))
  {
    DropStudentUnique(t.students, id);
    StudentKeepsUnique(t, id);
  }

  lemma EmailKeepsUnique(t: Tables, id: Id, email: string)
    requires Unique(t)
    ensures Unique(WithEmail(t, id, email))
  {
  }

  // ---- One learner ----

  /** The person has the email, is enrolled in the cohort on the track, and is a student. */
  predicate Enlisted(t: Tables, email: string, person: Id, cohort: Id, track: Option<Id>) {
    && EmailOf(t.people, person) == Some(email)
    && TrackOf(t.enrollments, cohort, person) == Some(track)
    && person in t.students
  }

  /** Exactly one row of each kind says so. */
  lemma EnlistedMeans(t: Tables, email: string, person: Id, cohort: Id, track: Option<Id>)
    requires Unique(t) && Enlisted(t, email, person, cohort, track)
    ensures OneLearner(t, email, person, cohort) && OnTrack(t, person, cohort, track)
    ensures Count(t.students, (p: Id) => p == person) == 1
  {
    EmailAt(t.people, person);
    var i :| 0 <= i < |t.people| && t.people[i] == Person(person, email);
    TrackAt(t.enrollments, cohort, person);
    OneRowEach(t, email, i, EnrollmentAt(t.enrollments, cohort, person));
    var k :| 0 <= k < |t.students| && t.students[k] == person;
    CountOne(t.students, (p: Id) => p == person, k);
  }

  lemma MeansEnlisted(t: Tables, email: string, person: Id, cohort: Id, track: Option<Id>)
    requires Unique(t) && OneLearner(t, email, person, cohort) && OnTrack(t, person, cohort, track)
    requires person in t.students
    ensures Enlisted(t, email, person, cohort, track)
  {
    EmailIs(t, person, email);
    TrackAt(t.enrollments, cohort, person);
    if EnrollmentAt(t.enrollments, cohort, person) == |t.enrollments| {
      CountZero(t.enrollments, (e: Enrollment) => e.cohort == cohort && e.person == person);
    }
  }
}
