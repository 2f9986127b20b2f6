/** Nobody is enrolled on a checklist that was not worked through. */
module OnboardingRuns {
  import opened Options
  import opened AdmissionsLedger
  import opened Enrolment
  import opened EnrolmentRuns

  predicate IsDone(tasks: map<string, bool>, key: string) { key in tasks && tasks[key] }

  /** The tasks an applicant must do; the entrance assessment may be carried forward. */
  predicate OwnTask(key: string) { key == "confirm_details" || key == "orientation" }

  // ---- How a task gets done ----

  lemma MoveTasks(r: Record, to: Status, cause: Cause, active: Intakes, key: string)
    requires OwnTask(key) && Move(r, to, cause, active).Ok?
    ensures IsDone(Move(r, to, cause, active).value.tasks, key) <==> IsDone(r.tasks, key)
  {
    TasksSeeded(r.tasks, r.taken);
  }

  lemma {:induction false} MoveAllTasks(r: Record, path: seq<Status>, cause: Cause, active: Intakes, key: string)
    requires OwnTask(key) && MoveAll(r, path, cause, active).Ok?
    ensures IsDone(MoveAll(r, path, cause, active).value.tasks, key) <==> IsDone(r.tasks, key)
  {
    if path != [] {
      var n := |path| - 1;
      MoveAllTasks(r, path[..n], cause, active, key);
      MoveTasks(MoveAll(r, path[..n], cause, active).value, path[n], cause, active, key);
    }
  }

  /** Only completing it makes such a task done, and only once it was seeded. */
  lemma PerformTasks(r: Record, op: Op, key: string)
    requires OwnTask(key) && Perform(r, op).Ok? && !IsDone(r.tasks, key)
    requires IsDone(Perform(r, op).value.tasks, key)
    ensures op == CompleteTask(key) && key in r.tasks
  {
    match op {
      case Transition(name, cause, active) => MoveTasks(r, StatusOf(name).value, cause, active, key);
      case AdminReview(action, cause, active) => ReviewTasks(r, action, cause, active, key);
      case AssessmentPolicy(threshold, accepted, waitlisted, active) =>
        PolicyTasks(r, threshold, accepted, waitlisted, active, key);
      case _ =>
    }
  }

  lemma ReviewTasks(r: Record, action: ReviewAction, cause: Cause, active: Intakes, key: string)
    requires OwnTask(key) && Review(r, action, cause, active).Ok?
    ensures IsDone(Review(r, action, cause, active).value.tasks, key) <==> IsDone(r.tasks, key)
  {
    match action {
      case Accept => MoveAllTasks(r, AcceptPath(r.status), cause, active, key);
      case Waitlist => MoveTasks(r, Waitlisted, cause, active, key);
      case Reject => MoveTasks(r, Rejected, cause, active, key);
      case Other =>
    }
  }

  lemma PolicyTasks(r: Record, threshold: Option<real>, accepted: string, waitlisted: string, active: Intakes,
      key: string)
    requires OwnTask(key) && Policy(r, threshold, accepted, waitlisted, active).Ok?
    ensures IsDone(Policy(r, threshold, accepted, waitlisted, active).value.tasks, key) <==> IsDone(r.tasks, key)
  {
    if PolicyDecides(r, threshold) {
      if r.score.value >= threshold.value {
        MoveAllTasks(r, [Screened, Accepted, Onboarding], POLICY, active, key);
      } else {
        MoveTasks(r, Waitlisted, POLICY.(notes := waitlisted), active, key);
      }
    }
  }

  // ---- Over every run ----

  ghost predicate DoneIn(s: State, a: Id, key: string) { a in s.applicants && IsDone(s.applicants[a].tasks, key) }

  predicate HasTask(s: State, a: Id, key: string) { a in s.applicants && key in s.applicants[a].tasks }

  lemma StepTasks(s: State, step: Step, a: Id, key: string)
    requires OwnTask(key) && a in s.applicants && !DoneIn(s, a, key) && DoneIn(Next(s, step).0, a, key)
    ensures step == Pipeline(a, CompleteTask(key)) && key in s.applicants[a].tasks
  {
    if step.Pipeline? && step.applicant == a && Perform(s.applicants[a], step.op).Ok? {
      PerformTasks(s.applicants[a], step.op, key);
    }
  }

  /** The step of the run that completed the task. */
  lemma {:induction false} WhenDone(s: State, steps: seq<Step>, a: Id, key: string) returns (m: nat)
    requires OwnTask(key) && a in s.applicants
    requires !DoneIn(s, a, key) && DoneIn(EnrolmentRuns.Run(s, steps), a, key)
    ensures m < |steps| && steps[m] == Pipeline(a, CompleteTask(key))
    ensures HasTask(EnrolmentRuns.Run(s, steps[..m]), a, key)
    decreases |steps|
  {
    var n := |steps| - 1;
    StaysApplicant(s, steps[..n], a);
    if DoneIn(EnrolmentRuns.Run(s, steps[..n]), a, key) {
      m := WhenDone(s, steps[..n], a, key);
      assert steps[..n][..m] == steps[..m];
    } else {
      m := n;
      StepTasks(EnrolmentRuns.Run(s, steps[..n]), steps[n], a, key);
    }
  }

  lemma {:induction false} StaysApplicant(s: State, steps: seq<Step>, a: Id)
    requires a in s.applicants
    ensures a in EnrolmentRuns.Run(s, steps).applicants
  {
    if steps != [] {
      StaysApplicant(s, steps[..|steps| - 1], a);
      NextStaysApplicant(EnrolmentRuns.Run(s, steps[..|steps| - 1]), steps[|steps| - 1], a);
    }
  }

  lemma NextStaysApplicant(s: State, step: Step, a: Id)
    requires a in s.applicants
    ensures a in Next(s, step).0.applicants
  {
  }

  /** In onboarding a checklist that is not empty has the three default tasks. */
  ghost predicate Listed(r: Record) {
    r.status == Onboarding && r.tasks != map[] ==>
      "entrance_assessment" in r.tasks && "confirm_details" in r.tasks && "orientation" in r.tasks
  }

  lemma MoveListed(r: Record, to: Status, cause: Cause, active: Intakes)
    requires Listed(r) && Move(r, to, cause, active).Ok?
    ensures Listed(Move(r, to, cause, active).value)
  {
    TasksSeeded(r.tasks, r.taken);
  }

  lemma {:induction false} MoveAllListed(r: Record, path: seq<Status>, cause: Cause, active: Intakes)
    requires Listed(r) && MoveAll(r, path, cause, active).Ok?
    ensures Listed(MoveAll(r, path, cause, active).value)
  {
    if path != [] {
      var n := |path| - 1;
      MoveAllListed(r, path[..n], cause, active);
      MoveListed(MoveAll(r, path[..n], cause, active).value, path[n], cause, active);
    }
  }

  lemma PerformListed(r: Record, op: Op)
    requires Listed(r) && Perform(r, op).Ok?
    ensures Listed(Perform(r, op).value)
  {
    match op {
      case Transition(name, cause, active) => MoveListed(r, StatusOf(name).value, cause, active);
      case AdminReview(action, cause, active) =>
        match action {
          case Accept => MoveAllListed(r, AcceptPath(r.status), cause, active);
          case Waitlist => MoveListed(r, Waitlisted, cause, active);
          case Reject => MoveListed(r, Rejected, cause, active);
          case Other =>
        }
      case AssessmentPolicy(threshold, accepted, waitlisted, active) =>
        if PolicyDecides(r, threshold) {
          if r.score.value >= threshold.value {
            MoveAllListed(r, [Screened, Accepted, Onboarding], POLICY, active);
          } else {
            MoveListed(r, Waitlisted, POLICY.(notes := waitlisted), active);
          }
        }
      case _ =>
    }
  }

  lemma NextListed(s: State, step: Step, a: Id)
    requires a in s.applicants && Listed(s.applicants[a])
    ensures Listed(Next(s, step).0.applicants[a])
  {
    if step.Pipeline? && step.applicant == a && Perform(s.applicants[a], step.op).Ok? {
      PerformListed(s.applicants[a], step.op);
    }
  }

  lemma {:induction false} RunListed(s: State, steps: seq<Step>, a: Id)
    requires a in s.applicants && Listed(s.applicants[a])
    ensures a in EnrolmentRuns.Run(s, steps).applicants && Listed(EnrolmentRuns.Run(s, steps).applicants[a])
  {
    if steps != [] {
      var before := EnrolmentRuns.Run(s, steps[..|steps| - 1]);
      RunListed(s, steps[..|steps| - 1], a);
      NextStaysApplicant(before, steps[|steps| - 1], a);
      NextListed(before, steps[|steps| - 1], a);
    }
  }

  /** Over every run that starts from an empty checklist: before "enrolled now" is
      reported, the applicant's details and orientation were each completed, by a
      request of their own and after the checklist was seeded. */
  lemma EnrolledAfterOwnTasks(s: State, steps: seq<Step>, k: nat, a: Id, key: string) returns (m: nat)
    requires a in s.applicants && s.applicants[a].tasks == map[]
    requires k < |steps| && Reports(EnrolmentRuns.Run(s, steps[..k]), steps[k], a)
    requires key == "confirm_details" || key == "orientation"
    ensures m < k && steps[m] == Pipeline(a, CompleteTask(key))
    ensures HasTask(EnrolmentRuns.Run(s, steps[..m]), a, key)
  {
    var init := steps[..k];
    RunListed(s, init, a);
    ReportsWhenReady(EnrolmentRuns.Run(s, init), steps[k], a);
    m := WhenDone(s, init, a, key);
    assert init[..m] == steps[..m];
  }

  // ---- A checklist worked through ----

  lemma {:induction false} MoveAllIntake(r: Record, path: seq<Status>, cause: Cause, active: Intakes)
    requires MoveAll(r, path, cause, active).Ok?
    ensures var m := MoveAll(r, path, cause, active).value; m.cohort == r.cohort && m.track == r.track
  {
    if path != [] {
      MoveAllIntake(r, path[..|path| - 1], cause, active);
    }
  }

  /** An applicant offered an accept, with an empty checklist and no assessment taken:
      the accept and then the three tasks, in this order, make the next automatic
      attempt report "enrolled now", and none before. */
  lemma WorkedChecklistEnrols(s: State, a: Id, cause: Cause, active: Intakes)
    requires a in s.applicants && Available(s.applicants[a], Accept, active)
    requires s.applicants[a].tasks == map[] && !s.applicants[a].taken
    ensures var s1 := Next(s, Pipeline(a, AdminReview(Accept, cause, active))).0;
            var s2 := Next(s1, Pipeline(a, CompleteTask("entrance_assessment"))).0;
            var s3 := Next(s2, Pipeline(a, CompleteTask("confirm_details"))).0;
            var s4 := Next(s3, Pipeline(a, CompleteTask("orientation"))).0;
            && !Reports(s1, Auto(a, active), a) && !Reports(s2, Auto(a, active), a)
            && !Reports(s3, Auto(a, active), a) && Reports(s4, Auto(a, active), a)
  {
    var r := s.applicants[a];
    AcceptCompletes(r, cause, active);
    MoveAllIntake(r, AcceptPath(r.status), cause, active);
    var r1 := Review(r, Accept, cause, active).value;
    var s1 := s.(applicants := s.applicants[a := r1]);
    assert Next(s, Pipeline(a, AdminReview(Accept, cause, active))).0 == s1;
    ChecklistWorked(s1, a, active);
  }

  lemma ChecklistWorked(s: State, a: Id, active: Intakes)
    requires a in s.applicants && s.applicants[a].status == Onboarding && HasActiveIntake(s.applicants[a], active)
    requires Seeded(map[], false, s.applicants[a].tasks)
    ensures var s2 := Next(s, Pipeline(a, CompleteTask("entrance_assessment"))).0;
            var s3 := Next(s2, Pipeline(a, CompleteTask("confirm_details"))).0;
            var s4 := Next(s3, Pipeline(a, CompleteTask("orientation"))).0;
            && !Reports(s, Auto(a, active), a) && !Reports(s2, Auto(a, active), a)
            && !Reports(s3, Auto(a, active), a) && Reports(s4, Auto(a, active), a)
  {
    var s2 := Next(s, Pipeline(a, CompleteTask("entrance_assessment"))).0;
    var s3 := Next(s2, Pipeline(a, CompleteTask("confirm_details"))).0;
    var s4 := Next(s3, Pipeline(a, CompleteTask("orientation"))).0;
    ReportsWhenReady(s, Auto(a, active), a);
    ReportsWhenReady(s2, Auto(a, active), a);
    ReportsWhenReady(s3, Auto(a, active), a);
    ReportsWhenReady(s4, Auto(a, active), a);
    TaskCompleted(s, a, "entrance_assessment");
    TaskCompleted(s2, a, "confirm_details");
    TaskCompleted(s3, a, "orientation");
    assert "orientation" != "confirm_details" && "orientation" != "entrance_assessment";
  }

  lemma TaskCompleted(s: State, a: Id, key: string)
    requires a in s.applicants && key in s.applicants[a].tasks
    ensures var (r, r') := (s.applicants[a], s.applicants[a].(tasks := s.applicants[a].tasks[key := true]));
            Next(s, Pipeline(a, CompleteTask(key))).0 == s.(applicants := s.applicants[a := r'])
  {
  }
}
