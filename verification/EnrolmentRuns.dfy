/** Serial runs of enrolment, the pipeline and the other writers of the same
    tables: "enrolled now" is said once, and exactly which writers end what it said. */
module EnrolmentRuns {
  import opened Options
  import opened AdmissionsLedger
  import opened Enrolment
  import opened EnrolmentFacts

  datatype State = State(tables: Tables, applicants: map<Id, Record>)

  /** The last six are writers outside this service. */
  datatype Step =
    | Auto(applicant: Id, active: Intakes)
    | ByAdmin(applicant: Id, cohort: Id, actor: Option<Id>, active: Intakes)
    | Pipeline(applicant: Id, op: Op)
    | Register(email: string)
    | Join(cohort: Id, person: Id, track: Option<Id>)
    | SetPassword(person: Id)
    | SetRole(person: Id, student: bool)
    | ChangeEmail(person: Id, email: string)
    | Remove(person: Id)

  /** One committed request; a refused one changes nothing. */
  function Next(s: State, step: Step): (State, Report) {
    match step
    case Auto(a, active) =>
      if a !in s.applicants then (s, NotYet)
      else
        var out := AutoEnrol(s.tables, s.applicants[a], active);
        if out.Err? then (s, NotYet)
        else (State(out.value.0, s.applicants[a := out.value.1]), out.value.2)
    case ByAdmin(a, cohort, actor, active) =>
      if a !in s.applicants then (s, NotYet)
      else
        var out := Enrol(s.tables, s.applicants[a], cohort, actor, active);
        if out.Err? then (s, NotYet) else (State(out.value.0, s.applicants[a := out.value.1]), NotYet)
    case Pipeline(a, op) =>
      if a !in s.applicants || Perform(s.applicants[a], op).Err? then (s, NotYet)
      else (s.(applicants := s.applicants[a := Perform(s.applicants[a], op).value]), NotYet)
    case Register(email) => (s.(tables := WithPerson(s.tables, email)), NotYet)
    case Join(cohort, person, track) =>
      if EmailOf(s.tables.people, person).None? then (s, NotYet)
      else (s.(tables := WithEnrollment(s.tables, cohort, person, track)), NotYet)
    case SetPassword(person) => (s.(tables := s.tables.(credentials := s.tables.credentials + {person})), NotYet)
    case SetRole(person, student) => (s.(tables := WithRole(s.tables, person, student)), NotYet)
    case ChangeEmail(person, email) => (s.(tables := WithEmail(s.tables, person, email)), NotYet)
    case Remove(person) => (s.(tables := WithoutPerson(s.tables, person)), NotYet)
  }

  function Run(s: State, steps: seq<Step>): State {
    if steps == [] then s else Next(Run(s, steps[..|steps| - 1]), steps[|steps| - 1]).0
  }

  predicate Reports(s: State, step: Step, a: Id) {
    step.Auto? && step.applicant == a && Next(s, step).1.EnrolledNow?
  }

  /** How often the run reports "enrolled now" for the applicant. */
  function ReportCount(s: State, steps: seq<Step>, a: Id): nat {
    if steps == [] then 0
    else ReportCount(s, steps[..|steps| - 1], a)
         + if Reports(Run(s, steps[..|steps| - 1]), steps[|steps| - 1], a) then 1 else 0
  }

  // ---- One report ----

  /** A report is made only with every task done, and leaves one person, one
      enrolment in the assigned cohort on the assigned track and one student
      grant, on top of the rows that were already there. */
  lemma ReportEstablishes(t: Tables, r: Record, active: Intakes)
    requires Unique(t) && AutoEnrol(t, r, active).Ok? && AutoEnrol(t, r, active).value.2.EnrolledNow?
    ensures var (t', r', report) := AutoEnrol(t, r, active).value;
            && r.status == Onboarding && TasksComplete(r.tasks) && r.cohort.Some?
            && r'.status == Enrolled && r'.person.Some?
            && Unique(t') && Reuses(t, t')
            && OneLearner(t', r.email, r'.person.value, r.cohort.value)
            && OnTrack(t', r'.person.value, r.cohort.value, r.track)
            && Count(t'.students, (p: Id) => p == r'.person.value) == 1
            && (report.invite <==> r'.person.value !in t.credentials)
  {
    EnrolEstablishes(t, r, r.cohort.value, None, active);
    var (t1, r1) := Enrol(t, r, r.cohort.value, None, active).value;
    StudentGranted(t1, r1.person.value);
    ReusesTransitive(t, t1, WithStudent(t1, r1.person.value));
  }

  lemma StudentGranted(t: Tables, person: Id)
    requires Unique(t)
    ensures var t' := WithStudent(t, person);
            Unique(t') && Reuses(t, t') && Count(t'.students, (p: Id) => p == person) == 1
  {
    StudentKeepsUnique(t, person);
    var students := WithStudent(t, person).students;
    var i :| 0 <= i < |students| && students[i] == person;
    CountOne(students, (p: Id) => p == person, i);
  }

  lemma ReusesTransitive(t1: Tables, t2: Tables, t3: Tables)
    requires Reuses(t1, t2) && Reuses(t2, t3)
    ensures Reuses(t1, t3)
  {
    forall i | 0 <= i < |t1.enrollments|
      ensures t3.enrollments[i].(track := t1.enrollments[i].track) == t1.enrollments[i]
    {
      assert t2.enrollments[i].(track := t1.enrollments[i].track) == t1.enrollments[i];
      assert t3.enrollments[i].(track := t2.enrollments[i].track) == t2.enrollments[i];
    }
  }

  /** Nothing happens unless the checklist is complete in onboarding. */
  lemma SilentUntilReady(t: Tables, r: Record, active: Intakes)
    ensures AutoEnrol(t, r, active) == Ok((t, r, NotYet)) <==>
            !(r.status == Onboarding && TasksComplete(r.tasks) && r.cohort.Some?)
    ensures AutoEnrol(t, r, active).Err? <==>
            r.status == Onboarding && TasksComplete(r.tasks) && r.cohort.Some? && !HasActiveIntake(r, active)
  {
  }

  // ---- Every run ----

  predicate IsEnrolled(s: State, a: Id) { a in s.applicants && s.applicants[a].status == Enrolled }

  lemma EnrolledIsFinal(r: Record, op: Op)
    requires r.status == Enrolled && Perform(r, op).Ok?
    ensures Perform(r, op).value.status == Enrolled
  {
  }

  lemma NextKeepsEnrolled(s: State, step: Step, a: Id)
    requires IsEnrolled(s, a)
    ensures IsEnrolled(Next(s, step).0, a) && !Reports(s, step, a)
  {
    if step.Pipeline? && step.applicant in s.applicants && Perform(s.applicants[step.applicant], step.op).Ok?
        && step.applicant == a {
      EnrolledIsFinal(s.applicants[a], step.op);
    }
  }

  lemma {:induction false} EnrolledNowOnce(s: State, steps: seq<Step>, a: Id)
    ensures ReportCount(s, steps, a) <= 1
    ensures ReportCount(s, steps, a) == 1 ==> IsEnrolled(Run(s, steps), a)
  {
    if steps != [] {
      var init := steps[..|steps| - 1];
      var before, last := Run(s, init), steps[|steps| - 1];
      EnrolledNowOnce(s, init, a);
      if IsEnrolled(before, a) {
        NextKeepsEnrolled(before, last, a);
      }
    }
  }

  /** The step is an automatic attempt that finds the applicant ready. */
  predicate FindsReady(s: State, step: Step, a: Id) {
    && step.Auto? && step.applicant == a && a in s.applicants
    && s.applicants[a].status == Onboarding && TasksComplete(s.applicants[a].tasks)
    && HasActiveIntake(s.applicants[a], step.active)
  }

  ghost predicate SomeoneFindsReady(s: State, steps: seq<Step>, a: Id) {
    exists k :: 0 <= k < |steps| && FoundReadyAt(s, steps, k, a)
  }

  ghost predicate FoundReadyAt(s: State, steps: seq<Step>, k: nat, a: Id)
    requires k < |steps|
  {
    FindsReady(Run(s, steps[..k]), steps[k], a)
  }

  lemma ReportsWhenReady(s: State, step: Step, a: Id)
    ensures Reports(s, step, a) <==> FindsReady(s, step, a)
  {
    if step.Auto? && step.applicant == a && a in s.applicants {
      SilentUntilReady(s.tables, s.applicants[a], step.active);
    }
  }

  lemma FoundReadyLast(s: State, steps: seq<Step>, a: Id)
    requires steps != []
    ensures var (init, last) := (steps[..|steps| - 1], steps[|steps| - 1]);
            SomeoneFindsReady(s, steps, a) <==> SomeoneFindsReady(s, init, a) || FindsReady(Run(s, init), last, a)
  {
    var n := |steps| - 1;
    forall k | 0 <= k < n ensures FoundReadyAt(s, steps[..n], k, a) <==> FoundReadyAt(s, steps, k, a) {
      assert steps[..n][..k] == steps[..k];
    }
    assert FoundReadyAt(s, steps, n, a) <==> FindsReady(Run(s, steps[..n]), steps[n], a);
  }

  /** Over every run "enrolled now" is said exactly once if some automatic attempt
      finds the applicant ready, and otherwise never. */
  lemma {:induction false} EnrolledNowExactly(s: State, steps: seq<Step>, a: Id)
    ensures ReportCount(s, steps, a) == if SomeoneFindsReady(s, steps, a) then 1 else 0
  {
    if steps != [] {
      var init := steps[..|steps| - 1];
      EnrolledNowExactly(s, init, a);
      EnrolledNowOnce(s, steps, a);
      ReportsWhenReady(Run(s, init), steps[|steps| - 1], a);
      FoundReadyLast(s, steps, a);
    }
  }

  lemma AutoKeepsUnique(s: State, a: Id, active: Intakes)
    requires Unique(s.tables)
    ensures Unique(Next(s, Auto(a, active)).0.tables)
  {
    if Reports(s, Auto(a, active), a) {
      ReportEstablishes(s.tables, s.applicants[a], active);
    } else {
      AutoReportsOrKeeps(s, a, active);
    }
  }

  /** An automatic attempt that reports nothing leaves the tables as they were. */
  lemma AutoReportsOrKeeps(s: State, a: Id, active: Intakes)
    ensures Reports(s, Auto(a, active), a) || Next(s, Auto(a, active)).0.tables == s.tables
  {
  }

  lemma AdminKeepsUnique(s: State, a: Id, cohort: Id, actor: Option<Id>, active: Intakes)
    requires Unique(s.tables)
    ensures Unique(Next(s, ByAdmin(a, cohort, actor, active)).0.tables)
  {
    if a in s.applicants && Enrol(s.tables, s.applicants[a], cohort, actor, active).Ok? {
      EnrolEstablishes(s.tables, s.applicants[a], cohort, actor, active);
    }
  }

  lemma NextKeepsUnique(s: State, step: Step)
    requires Unique(s.tables)
    ensures Unique(Next(s, step).0.tables)
  {
    match step {
      case Auto(a, active) => AutoKeepsUnique(s, a, active);
      case ByAdmin(a, cohort, actor, active) => AdminKeepsUnique(s, a, cohort, actor, active);
      case Register(email) => PersonKeepsUnique(s.tables, email);
      case Join(cohort, person, track) => EnrollmentKeepsUnique(s.tables, cohort, person, track);
      case SetRole(person, student) => RoleKeepsUnique(s.tables, person, student);
      case ChangeEmail(person, email) => EmailKeepsUnique(s.tables, person, email);
      case Remove(person) => RemovalKeepsUnique(s.tables, person);
      case _ =>
    }
  }

  lemma {:induction false} RunKeepsUnique(s: State, steps: seq<Step>)
    requires Unique(s.tables)
    ensures Unique(Run(s, steps).tables)
  {
    if steps != [] {
      RunKeepsUnique(s, steps[..|steps| - 1]);
      NextKeepsUnique(Run(s, steps[..|steps| - 1]), steps[|steps| - 1]);
    }
  }

  // ---- Who writes a learner's track ----

  /** The person an enrolment of this applicant lands on. */
  function Target(t: Tables, r: Record): Id {
    WithPerson(t, r.email).people[PersonAt(t.people, r.email)].id
  }

  /** The applicant this step enrols, if it succeeds. */
  function Enrols(s: State, step: Step): Option<Record> {
    match step
    case Auto(a, active) =>
      if a in s.applicants && AutoEnrol(s.tables, s.applicants[a], active).Ok?
         && AutoEnrol(s.tables, s.applicants[a], active).value.2.EnrolledNow?
      then Some(s.applicants[a]) else None
    case ByAdmin(a, cohort, actor, active) =>
      if a in s.applicants && Enrol(s.tables, s.applicants[a], cohort, actor, active).Ok?
      then Some(s.applicants[a]) else None
    case _ => None
  }

  /** The track this step writes to the enrolment of the person in the cohort. */
  function Writes(s: State, step: Step, cohort: Id, person: Id): Option<Option<Id>> {
    var r := Enrols(s, step);
    if r.Some? then
      if r.value.cohort == Some(cohort) && Target(s.tables, r.value) == person then Some(r.value.track) else None
    else if step.Join? && step.cohort == cohort && step.person == person && EmailOf(s.tables.people, person).Some? then
      Some(step.track)
    else None
  }

  /** What a successful enrolment does to the three tables. */
  lemma EnrolTables(s: State, step: Step)
    requires Enrols(s, step).Some?
    ensures var (t, r, t') := (s.tables, Enrols(s, step).value, Next(s, step).0.tables);
            && r.cohort.Some?
            && t'.people == WithPerson(t, r.email).people
            && t'.enrollments == WithEnrollment(t, r.cohort.value, Target(t, r), r.track).enrollments
            && (t'.students == t.students || t'.students == WithStudent(t, Target(t, r)).students)
  {
  }

  lemma StepTrack(s: State, step: Step, cohort: Id, person: Id)
    ensures TrackOf(Next(s, step).0.tables.enrollments, cohort, person) ==
            if step == Remove(person) then None
            else if Writes(s, step, cohort, person).Some? then Writes(s, step, cohort, person)
            else TrackOf(s.tables.enrollments, cohort, person)
  {
    if Enrols(s, step).Some? {
      var r := Enrols(s, step).value;
      EnrolTables(s, step);
      EnrollmentSetsTrack(s.tables, r.cohort.value, Target(s.tables, r), r.track, cohort, person);
    } else {
      match step {
        case Join(c, p, track) => EnrollmentSetsTrack(s.tables, c, p, track, cohort, person);
        case Remove(p) => TrackAfterDrop(s.tables.enrollments, p, cohort, person);
        case _ =>
      }
    }
  }

  /** The track last written to the person's enrolment in the cohort. */
  function LastTrack(s: State, steps: seq<Step>, cohort: Id, person: Id): Option<Option<Id>> {
    if steps == [] then TrackOf(s.tables.enrollments, cohort, person)
    else
      var init, last := steps[..|steps| - 1], steps[|steps| - 1];
      if last == Remove(person) then None
      else if Writes(Run(s, init), last, cohort, person).Some? then Writes(Run(s, init), last, cohort, person)
      else LastTrack(s, init, cohort, person)
  }

  /** After every run a learner's track is the one last written. */
  lemma {:induction false} TrackIsLastWritten(s: State, steps: seq<Step>, cohort: Id, person: Id)
    ensures TrackOf(Run(s, steps).tables.enrollments, cohort, person) == LastTrack(s, steps, cohort, person)
  {
    if steps != [] {
      TrackIsLastWritten(s, steps[..|steps| - 1], cohort, person);
      StepTrack(Run(s, steps[..|steps| - 1]), steps[|steps| - 1], cohort, person);
    }
  }

  // ---- Who is invited ----

  /** The person set a password in the run, or had one, and was not removed since. */
  predicate HasPassword(s: State, steps: seq<Step>, person: Id) {
    if steps == [] then person in s.tables.credentials
    else
      var init, last := steps[..|steps| - 1], steps[|steps| - 1];
      last == SetPassword(person) || (last != Remove(person) && HasPassword(s, init, person))
  }

  lemma StepCredentials(s: State, step: Step, person: Id)
    ensures person in Next(s, step).0.tables.credentials <==>
            step == SetPassword(person) || (step != Remove(person) && person in s.tables.credentials)
  {
  }

  lemma {:induction false} CredentialsAreSet(s: State, steps: seq<Step>, person: Id)
    ensures person in Run(s, steps).tables.credentials <==> HasPassword(s, steps, person)
  {
    if steps != [] {
      CredentialsAreSet(s, steps[..|steps| - 1], person);
      StepCredentials(Run(s, steps[..|steps| - 1]), steps[|steps| - 1], person);
    }
  }

  /** Over every run a report comes with an invitation exactly for a learner who has
      no password at that moment. */
  lemma InvitedIffNoPassword(s: State, steps: seq<Step>, k: nat, a: Id) returns (person: Id)
    requires Unique(s.tables) && k < |steps| && Reports(Run(s, steps[..k]), steps[k], a)
    ensures Next(Run(s, steps[..k]), steps[k]).0.applicants[a].person == Some(person)
    ensures Next(Run(s, steps[..k]), steps[k]).1 == EnrolledNow(!HasPassword(s, steps[..k], person))
  {
    var before := Run(s, steps[..k]);
    RunKeepsUnique(s, steps[..k]);
    ReportEstablishes(before.tables, before.applicants[a], steps[k].active);
    person := Next(before, steps[k]).0.applicants[a].person.value;
    CredentialsAreSet(s, steps[..k], person);
  }

  // ---- Exactly what ends a report ----

  /** The step removes the person or the student grant, gives the person another
      email, or writes another track to the enrolment. */
  predicate Breaks(s: State, step: Step, email: string, person: Id, cohort: Id, track: Option<Id>) {
    || step == Remove(person)
    || step == SetRole(person, false)
    || (step.ChangeEmail? && step.person == person && step.email != email
        && EmailFree(s.tables.people, person, step.email))
    || (step.Join? && step.cohort == cohort && step.person == person && step.track != track)
    || (Enrols(s, step).Some? && Enrols(s, step).value.email == email
        && Enrols(s, step).value.cohort == Some(cohort) && Enrols(s, step).value.track != track)
  }

  lemma TargetIff(t: Tables, r: Record, email: string, person: Id)
    requires Unique(t) && EmailOf(t.people, person) == Some(email)
    ensures Target(t, r) == person <==> r.email == email
  {
    EmailAt(t.people, person);
    var i :| 0 <= i < |t.people| && t.people[i] == Person(person, email);
    assert PersonAt(t.people, r.email) < |t.people| || t.people[i].email != r.email;
  }

  lemma StepEmail(s: State, step: Step, email: string, person: Id)
    requires Unique(s.tables) && EmailOf(s.tables.people, person) == Some(email)
    ensures EmailOf(Next(s, step).0.tables.people, person) == Some(email) <==>
            step != Remove(person)
            && !(step.ChangeEmail? && step.person == person && step.email != email
                 && EmailFree(s.tables.people, person, step.email))
  {
    var t := s.tables;
    if Enrols(s, step).Some? {
      EnrolTables(s, step);
      EmailAfterAppend(t.people, Person(t.next, Enrols(s, step).value.email), person);
    } else {
      match step {
        case Register(e) => EmailAfterAppend(t.people, Person(t.next, e), person);
        case ChangeEmail(p, e) => EmailAfterRename(t.people, p, e, person);
        case Remove(p) => EmailAfterDrop(t.people, p, person);
        case _ =>
      }
    }
  }

  lemma StepStudent(s: State, step: Step, email: string, person: Id)
    requires EmailOf(s.tables.people, person) == Some(email) && person in s.tables.students
    ensures person in Next(s, step).0.tables.students <==> step != Remove(person) && step != SetRole(person, false)
  {
    if Enrols(s, step).Some? {
      EnrolTables(s, step);
    } else {
      match step {
        case SetRole(p, student) => StudentAfterDrop(s.tables.students, p, person);
        case Remove(p) => StudentAfterDrop(s.tables.students, p, person);
        case _ =>
      }
    }
  }

  lemma StepWrites(s: State, step: Step, email: string, person: Id, cohort: Id, track: Option<Id>)
    requires Unique(s.tables) && EmailOf(s.tables.people, person) == Some(email)
    ensures (Writes(s, step, cohort, person).Some? && Writes(s, step, cohort, person) != Some(track)) <==>
            || (step.Join? && step.cohort == cohort && step.person == person && step.track != track)
            || (Enrols(s, step).Some? && Enrols(s, step).value.email == email
                && Enrols(s, step).value.cohort == Some(cohort) && Enrols(s, step).value.track != track)
  {
    if Enrols(s, step).Some? {
      TargetIff(s.tables, Enrols(s, step).value, email, person);
    }
  }

  /** One step keeps what a report said exactly when it is none of those. */
  lemma StaysEnlistedIff(s: State, step: Step, email: string, person: Id, cohort: Id, track: Option<Id>)
    requires Unique(s.tables) && Enlisted(s.tables, email, person, cohort, track)
    ensures Enlisted(Next(s, step).0.tables, email, person, cohort, track) <==>
            !Breaks(s, step, email, person, cohort, track)
  {
    StepEmail(s, step, email, person);
    StepStudent(s, step, email, person);
    StepTrack(s, step, cohort, person);
    StepWrites(s, step, email, person, cohort, track);
  }

  /** A report leaves the applicant's learner enlisted. */
  lemma ReportEnlists(s: State, step: Step, a: Id) returns (person: Id)
    requires Unique(s.tables) && Reports(s, step, a)
    ensures TasksComplete(s.applicants[a].tasks) && s.applicants[a].cohort.Some?
    ensures var r := s.applicants[a]; Enlisted(Next(s, step).0.tables, r.email, person, r.cohort.value, r.track)
  {
    var r := s.applicants[a];
    ReportEstablishes(s.tables, r, step.active);
    NextKeepsUnique(s, step);
    person := Next(s, step).0.applicants[a].person.value;
    OneIsPresent(Next(s, step).0.tables.students, person);
    MeansEnlisted(Next(s, step).0.tables, r.email, person, r.cohort.value, r.track);
  }

  lemma {:induction false} CountWitness<T>(s: seq<T>, p: T -> bool) returns (i: nat)
    requires Count(s, p) >= 1
    ensures i < |s| && p(s[i])
    decreases |s|
  {
    i := |s| - 1;
    if !p(s[i]) {
      i := CountWitness(s[..i], p);
    }
  }

  lemma OneIsPresent(ids: seq<Id>, id: Id)
    requires Count(ids, (p: Id) => p == id) == 1
    ensures id in ids
  {
    var i := CountWitness(ids, (p: Id) => p == id);
  }

  ghost predicate EnlistedAt(s: State, steps: seq<Step>, m: nat, email: string, person: Id, cohort: Id,
      track: Option<Id>)
    requires m <= |steps|
  {
    Enlisted(Run(s, steps[..m]).tables, email, person, cohort, track)
  }

  ghost predicate BreaksAt(s: State, steps: seq<Step>, m: nat, email: string, person: Id, cohort: Id, track: Option<Id>)
    requires m < |steps|
  {
    Breaks(Run(s, steps[..m]), steps[m], email, person, cohort, track)
  }

  lemma StepAt(s: State, steps: seq<Step>, m: nat, email: string, person: Id, cohort: Id, track: Option<Id>)
    requires Unique(s.tables) && m < |steps| && EnlistedAt(s, steps, m, email, person, cohort, track)
    ensures EnlistedAt(s, steps, m + 1, email, person, cohort, track) <==>
            !BreaksAt(s, steps, m, email, person, cohort, track)
  {
    assert steps[..m + 1][..m] == steps[..m];
    RunKeepsUnique(s, steps[..m]);
    StaysEnlistedIff(Run(s, steps[..m]), steps[m], email, person, cohort, track);
  }

  lemma {:induction false} EnlistedUntil(s: State, steps: seq<Step>, k: nat, m: nat,
                                         email: string, person: Id, cohort: Id, track: Option<Id>)
    requires Unique(s.tables) && k <= m <= |steps| && EnlistedAt(s, steps, k, email, person, cohort, track)
    requires forall j :: k <= j < m ==> !BreaksAt(s, steps, j, email, person, cohort, track)
    ensures EnlistedAt(s, steps, m, email, person, cohort, track)
    decreases m
  {
    if m > k {
      EnlistedUntil(s, steps, k, m - 1, email, person, cohort, track);
      StepAt(s, steps, m - 1, email, person, cohort, track);
    }
  }

  /** What the report at step k said is true at every later moment of the run exactly
      when no later step removes the person or the grant, changes the email, or
      writes another track. */
  lemma ReportLasts(s: State, steps: seq<Step>, k: nat, a: Id) returns (person: Id)
    requires Unique(s.tables) && k < |steps| && Reports(Run(s, steps[..k]), steps[k], a)
    ensures TasksComplete(Run(s, steps[..k]).applicants[a].tasks) && Run(s, steps[..k]).applicants[a].cohort.Some?
    ensures var r := Run(s, steps[..k]).applicants[a];
            && EnlistedAt(s, steps, k + 1, r.email, person, r.cohort.value, r.track)
            && ((forall m :: k < m <= |steps| ==> EnlistedAt(s, steps, m, r.email, person, r.cohort.value,
                r.track)) <==>
                (forall m :: k < m < |steps| ==> !BreaksAt(s, steps, m, r.email, person, r.cohort.value, r.track)))
  {
    var before := Run(s, steps[..k]);
    var r := before.applicants[a];
    RunKeepsUnique(s, steps[..k]);
    person := ReportEnlists(before, steps[k], a);
    assert steps[..k + 1][..k] == steps[..k];
    LastsIff(s, steps, k + 1, r.email, person, r.cohort.value, r.track);
  }

  lemma LastsIff(s: State, steps: seq<Step>, k: nat, email: string, person: Id, cohort: Id, track: Option<Id>)
    requires Unique(s.tables) && k <= |steps| && EnlistedAt(s, steps, k, email, person, cohort, track)
    ensures (forall m :: k <= m <= |steps| ==> EnlistedAt(s, steps, m, email, person, cohort, track)) <==>
            (forall m :: k <= m < |steps| ==> !BreaksAt(s, steps, m, email, person, cohort, track))
  {
    if forall m :: k <= m < |steps| ==> !BreaksAt(s, steps, m, email, person, cohort, track) {
      forall m | k <= m <= |steps| ensures EnlistedAt(s, steps, m, email, person, cohort, track) {
        EnlistedUntil(s, steps, k, m, email, person, cohort, track);
      }
    } else {
      var m :| k <= m < |steps| && BreaksAt(s, steps, m, email, person, cohort, track);
      if EnlistedAt(s, steps, m, email, person, cohort, track) {
        StepAt(s, steps, m, email, person, cohort, track);
        assert !EnlistedAt(s, steps, m + 1, email, person, cohort, track);
      }
    }
  }

  // ---- Two applications with one email ----

  const INTAKES: Intakes := {(0, 1), (0, 2)}

  /** Moved to onboarding by an administrator, with the seeded checklist done. */
  function Ready(track: Id): Record {
    Record("x", Onboarding, None,
           [Event(Applied, Screened, "", "admin", None), Event(Screened, Accepted, "", "admin", None),
            Event(Accepted, Onboarding, "", "admin", None)],
           map["entrance_assessment" := true, "confirm_details" := true, "orientation" := true],
           Some(0), Some(track), None, None, false, None)
  }

  lemma ReadyIsReachable(track: Id)
    ensures Chain(Ready(track).ledger, Onboarding)
    ensures Ready(track).tasks.Keys == SeedTasks(map[], false).Keys && TasksComplete(Ready(track).tasks)
  {
    var ledger := Ready(track).ledger;
    assert ledger[..2][..1][..0] == [];
    assert Chain(ledger[..2][..1][..0], Applied);
    assert Chain(ledger[..2][..1], Screened);
    assert Chain(ledger[..2], Accepted);
    assert "orientation" in Ready(track).tasks;
  }

  const TWO_READY := State(Tables([], [], [], {}, 0), map[0 := Ready(1), 1 := Ready(2)])

  /** Both are told "enrolled now"; they are one learner, and the second enrolment
      moves the only enrolment off the first application's track. */
  lemma SecondApplicationMovesTrack()
    ensures var (first, second) := (Auto(0, INTAKES), Auto(1, INTAKES));
            var mid := Next(TWO_READY, first).0;
            var end := Next(mid, second).0;
            && Reports(TWO_READY, first, 0) && Enlisted(mid.tables, "x", 0, 0, Some(1))
            && Reports(mid, second, 1) && Enlisted(end.tables, "x", 0, 0, Some(2))
            && Breaks(mid, second, "x", 0, 0, Some(1))
  {
    var mid := Next(TWO_READY, Auto(0, INTAKES)).0;
    ReadyEnrols(TWO_READY.tables, 1);
    var person, row := Person(0, "x"), Enrollment(0, 0, Some(1), "student", "active");
    assert [] + [person] == [person] && [] + [row] == [row];
    assert mid.tables.people == [person] && mid.tables.enrollments == [row] && mid.tables.students == [0];
    assert mid.applicants[1] == Ready(2);
    ReadyEnrols(mid.tables, 2);
    StepTrack(mid, Auto(1, INTAKES), 0, 0);
    assert PersonAt(mid.tables.people, "x") == 0;
  }

  lemma ReadyEnrols(t: Tables, track: Id)
    requires track == 1 || track == 2
    ensures AutoEnrol(t, Ready(track), INTAKES).Ok? && AutoEnrol(t, Ready(track), INTAKES).value.2.EnrolledNow?
  {
    ReadyIsReachable(track);
    assert HasActiveIntake(Ready(track), INTAKES);
  }
}
