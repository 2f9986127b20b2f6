/** What the pipeline's rules mean for an applicant, in the pipeline's own words:
    who can move where, what an offered action does, what the policy decides. */
module AdmissionsOutcomes {
  import opened Options
  import opened AdmissionsLedger

  // ---- One transition ----

  /** The pipeline's main line. */
  function NextOf(s: Status): Option<Status> {
    match s
    case Applied => Some(Screened)
    case Screened => Some(Accepted)
    case Accepted => Some(Onboarding)
    case Onboarding => Some(Enrolled)
    case _ => None
  }

  predicate Terminal(s: Status) { s == Enrolled || s == Rejected }

  /** Forward by one step; off to the waiting list from applied and screened, and back
      from there to either step before a decision; rejected from wherever it is open. */
  predicate CanMove(from: Status, to: Status) {
    || NextOf(from) == Some(to)
    || (to == Waitlisted && (from == Applied || from == Screened))
    || (from == Waitlisted && (to == Screened || to == Accepted))
    || (to == Rejected && !Terminal(from))
  }

  lemma AllowedMoves(from: Status, to: Status)
    ensures to in AllowedFrom(from) <==> CanMove(from, to)
  {
  }

  predicate Placed(r: Record, active: Intakes) {
    r.cohort.Some? && r.track.Some? && (r.cohort.value, r.track.value) in active
  }

  /** A transition to another status succeeds exactly if the pipeline allows it and,
      from accepted on, the applicant is placed in an active intake; it records one
      event, keeps the notes unless a reason is given, seeds the checklist on entering
      onboarding, and changes nothing else. */
  lemma TransitionExactly(r: Record, to: Status, cause: Cause, active: Intakes)
    requires to != r.status
    ensures var placed := to == Accepted || to == Onboarding || to == Enrolled ==> Placed(r, active);
            Move(r, to, cause, active).Ok? <==> CanMove(r.status, to) && placed
    ensures Move(r, to, cause, active).Ok? ==>
              var m := Move(r, to, cause, active).value;
              && m.status == to
              && m.ledger == r.ledger + [Event(r.status, to, cause.notes, cause.source, cause.actor)]
              && m.notes == (if cause.notes == "" then r.notes else Some(cause.notes))
              && (if to == Onboarding then Seeded(r.tasks, r.taken, m.tasks) else m.tasks == r.tasks)
              && m == r.(status := m.status, ledger := m.ledger, notes := m.notes, tasks := m.tasks)
  {
    AllowedMoves(r.status, to);
    TasksSeeded(r.tasks, r.taken);
  }

  // ---- Review actions ----

  predicate Offered(r: Record, action: ReviewAction, active: Intakes) {
    match action
    case Accept => Placed(r, active) && r.status in {Applied, Screened, Waitlisted, Accepted}
    case Waitlist => r.status == Applied || r.status == Screened
    case Reject => !Terminal(r.status)
    case Other => true
  }

  /** An action is carried out exactly when it is offered, and then has its target. */
  lemma OfferedIsDone(r: Record, action: ReviewAction, cause: Cause, active: Intakes)
    ensures Review(r, action, cause, active).Ok? <==> Offered(r, action, active)
    ensures Offered(r, action, active) ==>
              Review(r, action, cause, active).value.status ==
              match action
              case Accept => Onboarding
              case Waitlist => Waitlisted
              case Reject => Rejected
              case Other => r.status
  {
    AllowedMoves(r.status, Waitlisted);
    AllowedMoves(r.status, Rejected);
    if action == Accept && Offered(r, action, active) {
      AcceptCompletes(r, cause, active);
    }
  }

  // ---- The assessment policy ----

  /** Graded, valid, still applied, and the cohort has a threshold. */
  predicate Decided(r: Record, threshold: Option<real>) {
    r.status == Applied && r.cohort.Some? && r.score.Some? && r.valid == Some(true) && threshold.Some?
  }

  /** What the policy does: nothing before it can decide; from the threshold on it takes
      a placed applicant to onboarding with the acceptance note, and fails for one who is
      not placed; below it waits with the waiting-list note. */
  lemma PolicyExactly(r: Record, threshold: Option<real>, accepted: string, waitlisted: string, active: Intakes)
    ensures var p := Policy(r, threshold, accepted, waitlisted, active);
            if !Decided(r, threshold) then p == Ok(r)
            else if r.score.value < threshold.value then
              && p.Ok? && p.value.status == Waitlisted
              && p.value.notes == if waitlisted == "" then r.notes else Some(waitlisted)
            else if !Placed(r, active) then p.Err?
            else p.Ok? && p.value.status == Onboarding && p.value.notes == Some(accepted)
  {
    PolicyFailsIff(r, threshold, accepted, waitlisted, active);
  }

  /** A placed and graded applicant goes through the whole pipeline by its own writers:
      assigned to an open intake and given a valid score, the policy decides by it. */
  lemma GradedIsDecided(r: Record, cohort: Id, track: Id, active: Intakes, score: real, valid: bool,
      threshold: real, accepted: string, waitlisted: string)
    requires r.status == Applied && (cohort, track) in active
    ensures Perform(r, AssignIntake(cohort, track, active)).Ok?
    ensures var r1 := Perform(r, AssignIntake(cohort, track, active)).value;
            && Perform(r1, Grade(score, valid)).Ok?
            && var r2 := Perform(r1, Grade(score, valid)).value;
            && Perform(r2, AssessmentPolicy(Some(threshold), accepted, waitlisted, active)).Ok?
            && var r3 := Perform(r2, AssessmentPolicy(Some(threshold), accepted, waitlisted, active)).value;
            && r3.status == (if !valid then Applied else if score >= threshold then Onboarding else Waitlisted)
            && (r3.status == Onboarding ==> Seeded(r.tasks, true, r3.tasks))
  {
    var r1 := Perform(r, AssignIntake(cohort, track, active)).value;
    var r2 := Perform(r1, Grade(score, valid)).value;
    PolicyExactly(r2, Some(threshold), accepted, waitlisted, active);
    if valid && score >= threshold {
      PathSucceeds(r2, [Screened, Accepted, Onboarding], POLICY, active);
      TasksSeeded(r2.tasks, r2.taken);
    }
  }

  /** A closed intake is not assigned, and an unknown status not entered. */
  lemma ClosedIsRefused(r: Record, cohort: Id, track: Id, name: string, cause: Cause, active: Intakes)
    ensures Perform(r, AssignIntake(cohort, track, active)).Ok? <==> (cohort, track) in active
    ensures Perform(r, AssignIntake(cohort, track, active)).Ok? ==>
              Perform(r, AssignIntake(cohort, track, active)).value == r.(cohort := Some(cohort), track := Some(track))
    ensures (forall s :: name != NameOf(s)) ==> Perform(r, Transition(name, cause, active)) == Err(UnknownStatus)
    ensures forall s :: name == NameOf(s) ==> Perform(r, Transition(name, cause, active)) == Move(r, s, cause, active)
  {
    forall s ensures StatusOf(name) == Some(s) <==> name == NameOf(s) {
      NamesAreStatuses(name, s);
    }
  }
}
