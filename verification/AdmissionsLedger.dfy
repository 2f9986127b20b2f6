/** The admissions pipeline: allowed transitions, the audit ledger they leave,
    and what the ledger looks like after any run of the pipeline's writers. */
module AdmissionsLedger {
  import opened Options

  type Id = nat

  datatype Status = Applied | Screened | Accepted | Onboarding | Enrolled | Rejected | Waitlisted

  function AllowedFrom(s: Status): set<Status> {
    match s
    case Applied => {Screened, Rejected, Waitlisted}
    case Screened => {Accepted, Rejected, Waitlisted}
    case Waitlisted => {Screened, Accepted, Rejected}
    case Accepted => {Onboarding, Rejected}
    case Onboarding => {Enrolled, Rejected}
    case Enrolled => {}
    case Rejected => {}
  }

  function StatusOf(name: string): Option<Status> {
    if name == "applied" then Some(Applied)
    else if name == "screened" then Some(Screened)
    else if name == "accepted" then Some(Accepted)
    else if name == "onboarding" then Some(Onboarding)
    else if name == "enrolled" then Some(Enrolled)
    else if name == "rejected" then Some(Rejected)
    else if name == "waitlisted" then Some(Waitlisted)
    else None
  }

  function NameOf(s: Status): string {
    match s
    case Applied => "applied"
    case Screened => "screened"
    case Accepted => "accepted"
    case Onboarding => "onboarding"
    case Enrolled => "enrolled"
    case Rejected => "rejected"
    case Waitlisted => "waitlisted"
  }

  /** A name is read back as the one status it stands for, and no other is known. */
  lemma NamesAreStatuses(name: string, s: Status)
    ensures StatusOf(name) == Some(s) <==> name == NameOf(s)
  {
    assert "applied"[0] != "accepted"[0] || "applied"[1] != "accepted"[1];
    assert "screened"[0] == 's' && "onboarding"[0] == 'o' && "enrolled"[0] == 'e' && "rejected"[0] == 'r';
    assert "waitlisted"[0] == 'w';
  }

  /** An `applicant.transition` audit row. */
  datatype Event = Event(from: Status, to: Status, reason: string, source: string, actor: Option<Id>)

  /** The applicant's row, its transition events and its onboarding tasks. */
  datatype Record = Record(
    email: string,
    status: Status,
    notes: Option<string>,
    ledger: seq<Event>,
    tasks: map<string, bool>,
    cohort: Option<Id>,
    track: Option<Id>,
    score: Option<real>,
    valid: Option<bool>,
    taken: bool,
    person: Option<Id>)

  /** The active (cohort, track) pairs. */
  type Intakes = set<(Id, Id)>

  predicate HasActiveIntake(r: Record, active: Intakes) {
    r.cohort.Some? && r.track.Some? && (r.cohort.value, r.track.value) in active
  }

  const DEFAULT_TASKS := ["entrance_assessment", "confirm_details", "orientation"]

  /** `onboarding.seed_tasks`, and the carried-forward entrance assessment. */
  function SeedTasks(tasks: map<string, bool>, taken: bool): map<string, bool> {
    var seeded := map k | k in tasks.Keys + {"entrance_assessment", "confirm_details", "orientation"} ::
      k in tasks && tasks[k];
    if taken then seeded["entrance_assessment" := true] else seeded
  }

  predicate TasksComplete(tasks: map<string, bool>) {
    tasks != map[] && forall k :: k in tasks ==> tasks[k]
  }

  // ---- One transition ----

  datatype Error =
    | UnknownStatus
    | NotAllowed
    | NoActiveIntake
    | NotAvailable
    | NotOnboarding
    | TasksOutstanding
    | WrongCohort

  datatype Result<+T> = Ok(value: T) | Err(error: Error)

  datatype Cause = Cause(notes: string, source: string, actor: Option<Id>)

  function Move(r: Record, to: Status, cause: Cause, active: Intakes): Result<Record> {
    if to == r.status then Ok(r)
    else if to !in AllowedFrom(r.status) then Err(NotAllowed)
    else if to in {Accepted, Onboarding, Enrolled} && !HasActiveIntake(r, active) then Err(NoActiveIntake)
    else Ok(r.(
      status := to,
      notes := if cause.notes != "" then Some(cause.notes) else r.notes,
      ledger := r.ledger + [Event(r.status, to, cause.notes, cause.source, cause.actor)],
      tasks := if to == Onboarding then SeedTasks(r.tasks, r.taken) else r.tasks))
  }

  /** Several transitions in a row; the first refusal ends the request. */
  function MoveAll(r: Record, path: seq<Status>, cause: Cause, active: Intakes): Result<Record> {
    if path == [] then Ok(r)
    else
      var before := MoveAll(r, path[..|path| - 1], cause, active);
      if before.Err? then before else Move(before.value, path[|path| - 1], cause, active)
  }

  /** A checklist on entering onboarding: the three default tasks are there, what was
      there is kept, and what was absent is pending; only the entrance assessment is
      done without more if it was taken before. */
  ghost predicate Seeded(before: map<string, bool>, taken: bool, after: map<string, bool>) {
    && "entrance_assessment" in after && "confirm_details" in after && "orientation" in after
    && (forall k :: k in before ==> k in after)
    && (forall k :: k in after && k !in before ==> k in {"entrance_assessment", "confirm_details", "orientation"})
    && (forall k :: k in after && !(k == "entrance_assessment" && taken) ==> after[k] == (k in before && before[k]))
    && (taken ==> after["entrance_assessment"])
  }

  lemma OnboardingSeeds(r: Record, cause: Cause, active: Intakes)
    requires r.status != Onboarding && Move(r, Onboarding, cause, active).Ok?
    ensures Seeded(r.tasks, r.taken, Move(r, Onboarding, cause, active).value.tasks)
  {
    TasksSeeded(r.tasks, r.taken);
  }

  lemma TasksSeeded(tasks: map<string, bool>, taken: bool)
    ensures Seeded(tasks, taken, SeedTasks(tasks, taken))
  {
  }

  // ---- Admin review and assessment policy ----

  predicate Acceptable(s: Status) { s in {Applied, Screened, Waitlisted, Accepted} }

  function AcceptPath(s: Status): seq<Status> {
    match s
    case Applied => [Screened, Accepted, Onboarding]
    case Screened => [Accepted, Onboarding]
    case Waitlisted => [Accepted, Onboarding]
    case Accepted => [Onboarding]
    case _ => []
  }

  datatype ReviewAction = Accept | Waitlist | Reject | Other

  /** The status-changing part of `admin_review_actions`. */
  predicate Available(r: Record, action: ReviewAction, active: Intakes) {
    match action
    case Accept => HasActiveIntake(r, active) && Acceptable(r.status)
    case Waitlist => Waitlisted in AllowedFrom(r.status)
    case Reject => Rejected in AllowedFrom(r.status)
    case Other => true
  }

  /** `apply_admin_review_action`; the assessment and invitation actions (`Other`)
      leave the status and the transition ledger alone. */
  function Review(r: Record, action: ReviewAction, cause: Cause, active: Intakes): Result<Record> {
    if !Available(r, action, active) then Err(NotAvailable)
    else match action
      case Accept => MoveAll(r, AcceptPath(r.status), cause, active)
      case Waitlist => Move(r, Waitlisted, cause, active)
      case Reject => Move(r, Rejected, cause, active)
      case Other => Ok(r)
  }

  const POLICY := Cause("", "assessment_policy", None)

  predicate PolicyDecides(r: Record, threshold: Option<real>) {
    r.status == Applied && r.cohort.Some? && r.score.Some? && r.valid == Some(true) && threshold.Some?
  }

  /** `apply_assessment_policy`; `threshold` is the cohort's auto_accept_threshold. */
  function Policy(r: Record, threshold: Option<real>, accepted: string, waitlisted: string,
      active: Intakes): Result<Record> {
    if !PolicyDecides(r, threshold) then Ok(r)
    else if r.score.value >= threshold.value then
      var moved := MoveAll(r, [Screened, Accepted, Onboarding], POLICY, active);
      if moved.Ok? then Ok(moved.value.(notes := Some(accepted))) else moved
    else Move(r, Waitlisted, POLICY.(notes := waitlisted), active)
  }

  // ---- The ledger ----

  /** The events chain from `applied` to `s` along allowed transitions. */
  predicate Chain(ledger: seq<Event>, s: Status) {
    if ledger == [] then s == Applied
    else
      var last := ledger[|ledger| - 1];
      last.to == s && last.to in AllowedFrom(last.from) && Chain(ledger[..|ledger| - 1], last.from)
  }

  function Phase(s: Status): nat {
    match s
    case Applied => 0
    case Screened => 1
    case Waitlisted => 1
    case Accepted => 2
    case Onboarding => 3
    case Enrolled => 4
    case Rejected => 5
  }

  lemma MoveKeepsChain(r: Record, to: Status, cause: Cause, active: Intakes)
    requires Chain(r.ledger, r.status) && Move(r, to, cause, active).Ok?
    ensures Chain(Move(r, to, cause, active).value.ledger, Move(r, to, cause, active).value.status)
  {
    var m := Move(r, to, cause, active).value;
    assert m != r ==> m.ledger[..|r.ledger|] == r.ledger;
  }

  lemma {:induction false} MoveAllKeepsChain(r: Record, path: seq<Status>, cause: Cause, active: Intakes)
    requires Chain(r.ledger, r.status) && MoveAll(r, path, cause, active).Ok?
    ensures Chain(MoveAll(r, path, cause, active).value.ledger, MoveAll(r, path, cause, active).value.status)
  {
    if path != [] {
      MoveAllKeepsChain(r, path[..|path| - 1], cause, active);
      MoveKeepsChain(MoveAll(r, path[..|path| - 1], cause, active).value, path[|path| - 1], cause, active);
    }
  }

  /** Two events in order: the later one starts no earlier in the pipeline, and
      from `accepted` on every event moves strictly forward. */
  lemma {:induction false} PhaseNeverFalls(ledger: seq<Event>, s: Status, i: nat, j: nat)
    requires Chain(ledger, s) && i <= j < |ledger|
    ensures Phase(ledger[i].from) <= Phase(ledger[i].to) <= Phase(ledger[j].to) <= Phase(s)
    ensures i < j ==> Phase(ledger[i].to) <= Phase(ledger[j].from)
    ensures i < j && Phase(ledger[i].to) >= 2 ==> Phase(ledger[i].to) < Phase(ledger[j].to)
    decreases |ledger|
  {
    var n := |ledger| - 1;
    var before := ledger[..n];
    if j < n {
      PhaseNeverFalls(before, ledger[n].from, i, j);
    } else if i < n {
      PhaseNeverFalls(before, ledger[n].from, i, n - 1);
    }
  }

  /** `accepted` and `onboarding` are entered at most once, `enrolled` and
      `rejected` end the ledger, and nothing returns to `applied`. */
  lemma EnteredAtMostOnce(ledger: seq<Event>, s: Status)
    requires Chain(ledger, s)
    ensures forall i, j :: 0 <= i < j < |ledger| && ledger[i].to in {Accepted, Onboarding} ==>
            ledger[j].to != ledger[i].to
    ensures forall i :: 0 <= i < |ledger| && ledger[i].to in {Enrolled, Rejected} ==> i == |ledger| - 1
    ensures forall i :: 0 <= i < |ledger| ==> ledger[i].to != Applied
  {
    forall i, j | 0 <= i < j < |ledger| && ledger[i].to in {Accepted, Onboarding} ensures ledger[j].to != ledger[i].to {
      PhaseNeverFalls(ledger, s, i, j);
    }
    forall i | 0 <= i < |ledger|
      ensures ledger[i].to in {Enrolled, Rejected} ==> i == |ledger| - 1
      ensures ledger[i].to != Applied
    {
      EventAllowed(ledger, s, i);
      if i < |ledger| - 1 {
        EventAllowed(ledger, s, i + 1);
        Consecutive(ledger, s, i);
      }
    }
  }

  lemma {:induction false} EventAllowed(ledger: seq<Event>, s: Status, i: nat)
    requires Chain(ledger, s) && i < |ledger|
    ensures ledger[i].to in AllowedFrom(ledger[i].from)
    decreases |ledger|
  {
    if i < |ledger| - 1 {
      EventAllowed(ledger[..|ledger| - 1], ledger[|ledger| - 1].from, i);
    }
  }

  lemma {:induction false} Consecutive(ledger: seq<Event>, s: Status, i: nat)
    requires Chain(ledger, s) && i + 1 < |ledger|
    ensures ledger[i].to == ledger[i + 1].from
    decreases |ledger|
  {
    if i + 1 < |ledger| - 1 {
      Consecutive(ledger[..|ledger| - 1], ledger[|ledger| - 1].from, i);
    }
  }

  /** Every path to `enrolled` ends: accepted, onboarding, enrolled. */
  lemma PathToEnrolled(ledger: seq<Event>)
    requires Chain(ledger, Enrolled)
    ensures var n := |ledger|;
            && n >= 4
            && ledger[n - 1].from == Onboarding && ledger[n - 1].to == Enrolled
            && ledger[n - 2].from == Accepted && ledger[n - 2].to == Onboarding
            && ledger[n - 3].to == Accepted && ledger[n - 3].from in {Screened, Waitlisted}
            && ledger[0].from == Applied
  {
    LastEvent(ledger, Enrolled);
    PathToOnboarding(ledger[..|ledger| - 1]);
    StartsApplied(ledger, Enrolled);
  }

  lemma PathToOnboarding(ledger: seq<Event>)
    requires Chain(ledger, Onboarding)
    ensures var n := |ledger|;
            && n >= 3
            && ledger[n - 1].from == Accepted && ledger[n - 1].to == Onboarding
            && ledger[n - 2].to == Accepted && ledger[n - 2].from in {Screened, Waitlisted}
  {
    LastEvent(ledger, Onboarding);
    PathToAccepted(ledger[..|ledger| - 1]);
  }

  lemma PathToAccepted(ledger: seq<Event>)
    requires Chain(ledger, Accepted)
    ensures var n := |ledger|;
            n >= 2 && ledger[n - 1].to == Accepted && ledger[n - 1].from in {Screened, Waitlisted}
  {
    LastEvent(ledger, Accepted);
    LastEvent(ledger[..|ledger| - 1], ledger[|ledger| - 1].from);
  }

  lemma LastEvent(ledger: seq<Event>, s: Status)
    requires Chain(ledger, s) && s != Applied
    ensures ledger != []
    ensures var last := ledger[|ledger| - 1];
            last.to == s && s in AllowedFrom(last.from) && Chain(ledger[..|ledger| - 1], last.from)
  {
  }

  lemma {:induction false} StartsApplied(ledger: seq<Event>, s: Status)
    requires Chain(ledger, s) && ledger != []
    ensures ledger[0].from == Applied
    decreases |ledger|
  {
    if |ledger| > 1 {
      StartsApplied(ledger[..|ledger| - 1], ledger[|ledger| - 1].from);
    }
  }

  // ---- The accept path and the policy ----

  /** An offered accept always completes: it ends in onboarding, through exactly
      the steps of its path, and with the checklist seeded. */
  lemma AcceptCompletes(r: Record, cause: Cause, active: Intakes)
    requires Available(r, Accept, active)
    ensures Review(r, Accept, cause, active).Ok?
    ensures Review(r, Accept, cause, active).value.status == Onboarding
    ensures Seeded(r.tasks, r.taken, Review(r, Accept, cause, active).value.tasks)
    ensures Records(r.ledger, Review(r, Accept, cause, active).value.ledger, AcceptPath(r.status))
  {
    PathSucceeds(r, AcceptPath(r.status), cause, active);
    PathRecords(r, AcceptPath(r.status), cause, active);
    TasksSeeded(r.tasks, r.taken);
  }

  lemma {:induction false} PathSucceeds(r: Record, path: seq<Status>, cause: Cause, active: Intakes)
    requires HasActiveIntake(r, active) && path == AcceptPath(r.status) && path != []
    ensures MoveAll(r, path, cause, active).Ok?
    ensures MoveAll(r, path, cause, active).value.status == Onboarding
    ensures MoveAll(r, path, cause, active).value.tasks == SeedTasks(r.tasks, r.taken)
    decreases |path|
  {
    MoveFirst(r, path, cause, active);
    if |path| >= 2 {
      PathSucceeds(Move(r, path[0], cause, active).value, path[1..], cause, active);
    } else {
      assert path[1..] == [];
    }
  }

  predicate Records(before: seq<Event>, after: seq<Event>, path: seq<Status>) {
    && |after| == |before| + |path| && after[..|before|] == before
    && forall k :: 0 <= k < |path| ==> after[|before| + k].to == path[k]
  }

  /** No step repeats the status before it. */
  ghost predicate Stepping(from: Status, path: seq<Status>) {
    && (path != [] ==> path[0] != from)
    && forall k, l :: 0 <= k < l < |path| && l == k + 1 ==> path[k] != path[l]
  }

  /** Transitions that all change the status leave one event each, in order. */
  lemma {:induction false} PathRecords(r: Record, path: seq<Status>, cause: Cause, active: Intakes)
    requires MoveAll(r, path, cause, active).Ok?
    requires Stepping(r.status, path)
    ensures path != [] ==> MoveAll(r, path, cause, active).value.status == path[|path| - 1]
    ensures Records(r.ledger, MoveAll(r, path, cause, active).value.ledger, path)
    decreases |path|
  {
    if path == [] {
      assert r.ledger[..|r.ledger|] == r.ledger;
    } else {
      var n := |path| - 1;
      var before := MoveAll(r, path[..n], cause, active);
      PathRecords(r, path[..n], cause, active);
      assert path[n] != before.value.status;
      var after := Move(before.value, path[n], cause, active).value;
      RecordsOne(r.ledger, before.value.ledger, after.ledger[|after.ledger| - 1], path);
    }
  }

  lemma RecordsOne(start: seq<Event>, before: seq<Event>, e: Event, path: seq<Status>)
    requires path != [] && e.to == path[|path| - 1] && Records(start, before, path[..|path| - 1])
    ensures Records(start, before + [e], path)
  {
    var n := |path| - 1;
    assert (before + [e])[..|start|] == before[..|start|];
    forall k | 0 <= k < |path| ensures (before + [e])[|start| + k].to == path[k] {
      assert k < n ==> before[|start| + k].to == path[..n][k];
    }
  }

  lemma {:induction false} MoveFirst(r: Record, path: seq<Status>, cause: Cause, active: Intakes)
    requires path != []
    ensures MoveAll(r, path, cause, active) ==
            if Move(r, path[0], cause, active).Err? then Move(r, path[0], cause, active)
            else MoveAll(Move(r, path[0], cause, active).value, path[1..], cause, active)
    decreases |path|
  {
    var n := |path| - 1;
    if n == 0 {
      assert path[..0] == [];
      assert MoveAll(r, path[..0], cause, active) == Ok(r);
    } else {
      MoveFirst(r, path[..n], cause, active);
      assert path[..n][1..] == path[1..][..n - 1];
    }
  }

  /** When the policy decides, it fails exactly on a passing score without an
      active intake: a cohort alone, with no active track, is not enough. */
  lemma PolicyFailsIff(r: Record, threshold: Option<real>, accepted: string, waitlisted: string, active: Intakes)
    ensures Policy(r, threshold, accepted, waitlisted, active).Err? <==>
            PolicyDecides(r, threshold) && r.score.value >= threshold.value && !HasActiveIntake(r, active)
    ensures PolicyDecides(r, threshold) && Policy(r, threshold, accepted, waitlisted, active).Ok? ==>
            Policy(r, threshold, accepted, waitlisted, active).value.status ==
            if r.score.value >= threshold.value then Onboarding else Waitlisted
  {
    if PolicyDecides(r, threshold) && r.score.value >= threshold.value {
      var path := [Screened, Accepted, Onboarding];
      if HasActiveIntake(r, active) {
        PathSucceeds(r, path, POLICY, active);
      } else {
        MoveFirst(r, path, POLICY, active);
        MoveFirst(Move(r, Screened, POLICY, active).value, path[1..], POLICY, active);
      }
    }
  }

  /** An applicant with a cohort, a passing score and no track at all. */
  lemma PassingWithoutTrackFails()
    ensures var r := Record("x", Applied, None, [], map[], Some(0), None, Some(1.0), Some(true), true, None);
            Policy(r, Some(0.5), "accepted", "waitlisted", {(0, 1)}).Err?
  {
    var r := Record("x", Applied, None, [], map[], Some(0), None, Some(1.0), Some(true), true, None);
    PolicyFailsIff(r, Some(0.5), "accepted", "waitlisted", {(0, 1)});
  }

  // ---- Every run ----

  /** The pipeline's writers; a refused request is rolled back. */
  datatype Op =
    | Transition(name: string, cause: Cause, active: Intakes)
    | AdminReview(action: ReviewAction, cause: Cause, active: Intakes)
    | AssessmentPolicy(threshold: Option<real>, accepted: string, waitlisted: string, active: Intakes)
    | AssignIntake(cohort: Id, track: Id, active: Intakes)
    | Grade(score: real, valid: bool)
    | CompleteTask(key: string)

  function Perform(r: Record, op: Op): Result<Record> {
    match op
    case Transition(name, cause, active) =>
      if StatusOf(name).None? then Err(UnknownStatus) else Move(r, StatusOf(name).value, cause, active)
    case AdminReview(action, cause, active) => Review(r, action, cause, active)
    case AssessmentPolicy(threshold, accepted, waitlisted, active) => Policy(r, threshold, accepted, waitlisted, active)
    case AssignIntake(cohort, track, active) =>
      if (cohort, track) in active then Ok(r.(cohort := Some(cohort), track := Some(track))) else Err(NoActiveIntake)
    case Grade(score, valid) => Ok(r.(score := Some(score), valid := Some(valid), taken := true))
    case CompleteTask(key) => Ok(if key in r.tasks then r.(tasks := r.tasks[key := true]) else r)
  }

  function Run(r: Record, ops: seq<Op>): Record {
    if ops == [] then r
    else
      var before := Run(r, ops[..|ops| - 1]);
      var next := Perform(before, ops[|ops| - 1]);
      if next.Ok? then next.value else before
  }

  lemma PerformKeepsChain(r: Record, op: Op)
    requires Chain(r.ledger, r.status) && Perform(r, op).Ok?
    ensures Chain(Perform(r, op).value.ledger, Perform(r, op).value.status)
  {
    match op {
      case Transition(name, cause, active) => MoveKeepsChain(r, StatusOf(name).value, cause, active);
      case AdminReview(action, cause, active) =>
        match action {
          case Accept => MoveAllKeepsChain(r, AcceptPath(r.status), cause, active);
          case Waitlist => MoveKeepsChain(r, Waitlisted, cause, active);
          case Reject => MoveKeepsChain(r, Rejected, cause, active);
          case Other =>
        }
      case AssessmentPolicy(threshold, accepted, waitlisted, active) =>
        if PolicyDecides(r, threshold) {
          if r.score.value >= threshold.value {
            MoveAllKeepsChain(r, [Screened, Accepted, Onboarding], POLICY, active);
          } else {
            MoveKeepsChain(r, Waitlisted, POLICY.(notes := waitlisted), active);
          }
        }
      case _ =>
    }
  }

  /** In every reachable state the ledger explains the status. */
  lemma {:induction false} LedgerExplainsStatus(r: Record, ops: seq<Op>)
    requires r.status == Applied && r.ledger == []
    ensures Chain(Run(r, ops).ledger, Run(r, ops).status)
  {
    if ops != [] {
      LedgerExplainsStatus(r, ops[..|ops| - 1]);
      var before := Run(r, ops[..|ops| - 1]);
      if Perform(before, ops[|ops| - 1]).Ok? {
        PerformKeepsChain(before, ops[|ops| - 1]);
      }
    }
  }
}
