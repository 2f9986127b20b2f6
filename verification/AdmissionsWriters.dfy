/** The applicant row and its writers: each method changes the row exactly as
    the value-level operations of AdmissionsLedger say. */
module AdmissionsWriters {
  import opened Options
  import opened AdmissionsLedger

  class Applicant {
    const email: string
    var status: Status
    var notes: Option<string>
    var ledger: seq<Event>
    var tasks: map<string, bool>
    var cohort: Option<Id>
    var track: Option<Id>
    var score: Option<real>
    var valid: Option<bool>
    var taken: bool
    var person: Option<Id>

    constructor (email: string)
      ensures View() == Record(email, Applied, None, [], map[], None, None, None, None, false, None)
    {
      this.email := email;
      status, notes, ledger, tasks := Applied, None, [], map[];
      cohort, track, score, valid, taken, person := None, None, None, None, false, None;
    }

    function View(): Record
      reads this
    {
      Record(email, status, notes, ledger, tasks, cohort, track, score, valid, taken, person)
    }

    method SeedOnboarding()
      modifies this`tasks
      ensures tasks == SeedTasks(old(tasks), taken)
    {
      var order := 0;
      while order < |DEFAULT_TASKS|
        invariant order <= |DEFAULT_TASKS|
        invariant forall k :: k in tasks <==> k in old(tasks) || k in DEFAULT_TASKS[..order]
        invariant forall k :: k in tasks ==> tasks[k] == (k in old(tasks) && old(tasks)[k])
      {
        if DEFAULT_TASKS[order] !in tasks {
          tasks := tasks[DEFAULT_TASKS[order] := false];
        }
        order := order + 1;
      }
      assert DEFAULT_TASKS[..order] == ["entrance_assessment", "confirm_details", "orientation"];
      if taken {
        tasks := tasks["entrance_assessment" := true];
      }
    }

    /** `transition_applicant`, once the name is known to be a status. */
    method MoveTo(to: Status, cause: Cause, active: Intakes) returns (error: Option<Error>)
      modifies this
      ensures error.None? ==> Move(old(View()), to, cause, active) == Ok(View())
      ensures error.Some? ==> View() == old(View()) && Move(old(View()), to, cause, active) == Err(error.value)
    {
      var current := status;
      if to == current { return None; }
      if to !in AllowedFrom(current) { return Some(NotAllowed); }
      if to in {Accepted, Onboarding, Enrolled} && !HasActiveIntake(View(), active) {
        return Some(NoActiveIntake);
      }
      status := to;
      if cause.notes != "" {
        notes := Some(cause.notes);
      }
      ledger := ledger + [Event(current, to, cause.notes, cause.source, cause.actor)];
      if to == Onboarding {
        SeedOnboarding();
      }
      return None;
    }

    method Transition(name: string, cause: Cause, active: Intakes) returns (error: Option<Error>)
      modifies this
      ensures error.None? ==> Perform(old(View()), Op.Transition(name, cause, active)) == Ok(View())
      ensures error.Some? ==> View() == old(View())
      ensures error.Some? ==> Perform(old(View()), Op.Transition(name, cause, active)) == Err(error.value)
    {
      var to := StatusOf(name);
      if to.None? { return Some(UnknownStatus); }
      error := MoveTo(to.value, cause, active);
    }

    /** The loop over a fixed path. A refusal stops it with the earlier steps
        applied, and the request's rollback discards them. */
    method Walk(path: seq<Status>, cause: Cause, active: Intakes) returns (error: Option<Error>, done: nat)
      modifies this
      ensures done <= |path| && MoveAll(old(View()), path[..done], cause, active) == Ok(View())
      ensures error.None? ==> done == |path| && MoveAll(old(View()), path, cause, active) == Ok(View())
      ensures error.Some? ==> MoveAll(old(View()), path, cause, active) == Err(error.value)
    {
      done := 0;
      while done < |path|
        invariant done <= |path|
        invariant MoveAll(old(View()), path[..done], cause, active) == Ok(View())
      {
        MoveAllNext(old(View()), path, done, cause, active);
        error := MoveTo(path[done], cause, active);
        if error.Some? {
          RefusalStands(old(View()), path, done + 1, cause, active);
          return;
        }
        done := done + 1;
      }
      assert path[..done] == path;
      error := None;
    }

    method AdminReview(action: ReviewAction, cause: Cause, active: Intakes) returns (error: Option<Error>)
      modifies this
      ensures error.None? ==> Review(old(View()), action, cause, active) == Ok(View())
      ensures error.Some? ==> View() == old(View()) && Review(old(View()), action, cause, active) == Err(error.value)
    {
      if !Available(View(), action, active) { return Some(NotAvailable); }
      match action {
        case Accept =>
          AcceptCompletes(View(), cause, active);
          var done;
          error, done := Walk(AcceptPath(status), cause, active);
        case Waitlist => error := MoveTo(Waitlisted, cause, active);
        case Reject => error := MoveTo(Rejected, cause, active);
        case Other => error := None;
      }
    }

    method AssessmentPolicy(threshold: Option<real>, accepted: string, waitlisted: string, active: Intakes)
      returns (error: Option<Error>)
      modifies this
      ensures error.None? ==> Policy(old(View()), threshold, accepted, waitlisted, active) == Ok(View())
      ensures error.Some? ==> Policy(old(View()), threshold, accepted, waitlisted, active) == Err(error.value)
      ensures error.Some? ==> !HasActiveIntake(old(View()), active)
    {
      ghost var before := View();
      if status != Applied || cohort.None? || score.None? || valid != Some(true) || threshold.None? {
        return None;
      }
      if score.value >= threshold.value {
        var done;
        error, done := Walk([Screened, Accepted, Onboarding], POLICY, active);
        if error.None? {
          notes := Some(accepted);
        }
        PolicyFailsIff(before, threshold, accepted, waitlisted, active);
      } else {
        error := MoveTo(Waitlisted, POLICY.(notes := waitlisted), active);
      }
    }
  }

  lemma MoveAllNext(r: Record, path: seq<Status>, k: nat, cause: Cause, active: Intakes)
    requires k < |path| && MoveAll(r, path[..k], cause, active).Ok?
    ensures MoveAll(r, path[..k + 1], cause, active) ==
            Move(MoveAll(r, path[..k], cause, active).value, path[k], cause, active)
  {
    assert path[..k + 1][..k] == path[..k];
  }

  lemma {:induction false} RefusalStands(r: Record, path: seq<Status>, k: nat, cause: Cause, active: Intakes)
    requires k <= |path| && MoveAll(r, path[..k], cause, active).Err?
    ensures MoveAll(r, path, cause, active) == MoveAll(r, path[..k], cause, active)
    decreases |path|
  {
    if k == |path| {
      assert path[..k] == path;
    } else {
      var init := path[..|path| - 1];
      assert init[..k] == path[..k];
      RefusalStands(r, init, k, cause, active);
    }
  }
}
