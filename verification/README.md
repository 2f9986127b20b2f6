# Academy: a verified model of the learning platform's hard core

A Dafny model of the parts of the Academy whose rules only hold over whole
runs, whole graphs or whole documents, with proofs of those rules.
`dafny verify dfyconfig.toml` checks everything.

**Assessment protocol** (`AttemptTables`, `ExamEngine`, `AttemptPolicy`,
`AssessmentProtocol`, `ProtocolSafety`, `ProtocolTheorems`, `ProtocolLiveness`,
`LockChoice`, `SerialSpec`, `Serializability`, `SerialRuns`, `RevealRuns`). Any
number of request transactions (submit, open a sitting, close it, grant an
attempt, rescore, issue a certificate) run statement by statement over shared
tables. They take PostgreSQL row locks that conflict as
in section 13.3.2 of the PostgreSQL 16 documentation: the learner's `people` row
in a mode that is a parameter, the foreign-key KEY SHARE on it, and the
completion row FOR UPDATE. An INSERT waits for an uncommitted row on the same
unique key and fails on a committed one, for completions, submissions, open
sittings and certificates. A transaction buffers its writes until COMMIT and may
be rolled back at any step. The invariant of `ProtocolSafety` is kept by every
step, and the theorems quantify over every schedule. `SerialSpec` says what each
request does as one atomic step; every run of the machine ends as the committed
requests would one after the other.

**Repair** (`AttemptRepair`) is the migration that establishes the numbering and
single-sitting rules from arbitrary data. **Best of** (`BestScores`) is the score
of record and its three readers.

**Curriculum** (`PrerequisiteGraph`, `CurriculumLoader`, `CurriculumRuns`). The
recursive three-colour search, the projection into a table several disciplines
share, and any sequence of files loaded into it.

**Sanitiser** (`Sanitizer`, `SanitizerRoundTrip`, `SanitizerSafety`). The streaming
filter with its one counter, the recursive prune it must agree with, a reader of
the emitted HTML, and what that reader never finds.

**Facilitators** (`Facilitators`, `FacilitatorSafety`, `FacilitatorEligibility`,
`FacilitatorLiveness`, `FacilitatorActors`, `FacilitatorSweep`,
`FacilitatorTargeted`). The activation function under concurrent callers and
concurrent other writers.

**Admissions** (`AdmissionsLedger`, `AdmissionsOutcomes`, `AdmissionsWriters`,
`Enrolment`, `EnrolmentFacts`, `EnrolmentRuns`, `OnboardingRuns`, `Intake`,
`IntakeRuns`). The status machine and its audit ledger, the onboarding checklist,
enrolment, and the two intake identity rules.

**Arithmetic and data migrations** (`BankBalance`, `BankRebalance`,
`BankProposals`, `BankLinter`, `PercentileBands`, `CheckpointTransfer`).

Objects the program updates in place are classes here (`CycleSearch`, `Tenant`,
`Filter`, `Applicant`, `Register`, `Applicants`, `Database`) or arrays
(`RecomputeLevels`). Each of their methods is proved to do what a function on
values says, and the rules are lemmas about those functions. Floats are exact
rationals.

## Where a promise does not hold of the code

Each of these is a proved equivalence or a proved concrete input.

- The submit page (`app/web/learn.py:585-597`) asks whether to reveal the answer
  key without reporting grants. A caller is safe if and only if it reports at
  least the grants recorded (`AttemptPolicy.SafeCallers`); the submit page shows
  the key early exactly while granted attempts are left
  (`AttemptPolicy.UnreportedGrantsLeak`), and a later submission is then recorded
  (`RevealRuns.LeakIsARun`, `RevealRuns.SubmitPageLeaks`). The to-do list
  (`app/services/todo.py:121`) reports none either, but shows no key: its
  `feedback_available` flag is early in the same cases.
- A file that requires a course of another discipline can close a cycle through
  edges the file does not own. Accepted runs keep every acyclic table acyclic if
  and only if each requirement is inside the file's discipline
  (`PrerequisiteGraph.AcyclicKeptIff`, `CurriculumRuns.LoadKeepsAcyclicIff`,
  `PrerequisiteGraph.CrossDisciplineCycle`).
- Passing is sticky if and only if the threshold is not negative
  (`BestScores.PassIsSticky`).
- `<embed>` has no end tag but raises the suppression counter. The counter
  returns to its start if and only if every suppressed element is closed, and the
  filter prints the pruned document if and only if nothing follows the first
  unclosed one (`Sanitizer.FilterIsPrune`, `Sanitizer.EmbedLosesText`).
- The assessment policy fails on a passing score whose applicant has a cohort but
  no active track (`AdmissionsLedger.PolicyFailsIff`,
  `AdmissionsLedger.PassingWithoutTrackFails`).
- Eligibility is decided at the recheck, not at the COMMIT. In between a
  nomination stays eligible if and only if no step deactivates the person or takes
  back a required completion (`FacilitatorEligibility.EligibleThroughoutIff`); a
  run where it does not is `FacilitatorSweep.NomineeMayLeaveBeforeCommit`.
- An empty-string external reference is looked up as a local email and stored as
  a reference, so repeating the same submission is refused
  (`Intake.RefusedIff`, `Intake.EmptyReferenceTwice`). Only a direct call of the
  service reaches this: the application form (`app/web/apply.py:193`) passes no
  reference, and the integration endpoint
  (`app/api/erp_applicant_assessments.py:30`) demands a non-empty one.
- What "enrolled now" reported stays true if and only if no later step removes the
  person or the student grant, changes the email, or writes another track
  (`EnrolmentRuns.StaysEnlistedIff`, `EnrolmentRuns.ReportLasts`). A second
  application with the same email is such a writer
  (`EnrolmentRuns.SecondApplicationMovesTrack`).
- A rebalancing suggestion settles its question if and only if the hedge makes up
  for the full stops that are stripped (`BankProposals.SecondPassIff`,
  `BankProposals.TwoStopsNeedAnotherPass`). An edit leaves the answer strictly
  shortest if and only if its distractors all have one text and the suggestion
  is longer than the answer or spells it (`BankProposals.EditExtremes`,
  `BankProposals.EqualDistractorsOverturn`).
- No target is below eight characters, so brief answers are not brought into
  range. The targets straddle the answer if and only if it has nine characters
  and three distractors, and meet the ratio if and only if it has seven
  (`BankRebalance.ReportedTargetsFit`). With every distractor at its target an
  answer is still strictly shortest if and only if it has fewer than eight
  (`BankLinter.FittedQuestion`, `BankLinter.BriefAnswerStaysShortest`), and the
  linter still flags the bank for extreme answers if and only if over two fifths
  of five or more answers are that brief (`BankLinter.FittedBankShares`).
- Re-banding an empty selection with a minimum of zero or less ends in an
  IndexError (`PercentileBands.RecomputeLevels`,
  `PercentileBands.EmptySelectionFails`).

## Model

| member | source | states |
|---|---|---|
| `LockChoice.OnlyNoKeyUpdate` | app/services/assessment.py:53-60 | for every lock mode: no run of any requests under any policy gets stuck and every run keeps the attempt numbering and limit, if and only if the learner row is locked FOR NO KEY UPDATE |
| `LockChoice.UpdateDeadlocks` | app/services/attempts.py:49-57 | under plain FOR UPDATE a submission and a certificate request reach a state in which neither can ever step |
| `LockChoice.SharedExceedsLimit` | app/services/assessment.py:53-75 | under FOR SHARE or FOR KEY SHARE two submissions are both admitted on one allowed attempt and commit numbers 1 and 2, within the unique constraint on attempt numbers |
| `LockChoice.NoKeyUpdateWorks` | app/services/assessment.py:53-60 | under NO KEY UPDATE no reachable state is stuck and every reachable table is consistent |
| `ProtocolLiveness.SomeoneMoves` | app/services/completion_aggregate.py:18-55 | deadlock freedom: in every reachable state with an unfinished transaction, some transaction can take its next step |
| `ProtocolLiveness.OwnerMoves` | app/services/certificates.py:80-105 | the holder of a completion row is never blocked: its only further lock is the foreign-key KEY SHARE, which the learner lock admits |
| `ProtocolLiveness.CompletionWaiterMoves` | app/services/completion_aggregate.py:37-55 | whoever waits for a completion row or its first insertion waits for a transaction that can step |
| `ProtocolLiveness.OnlyAnchorsBlock` | app/models/assessment.py:95-101 | under the learner and completion locks no INSERT ever waits on a unique key, except the first insertion of a completion row |
| `ProtocolLiveness.RunsAreBounded` | app/services/assessment.py:63-100 | no schedule is longer than the work its requests contain |
| `ProtocolLiveness.CanFinish` | app/services/assessment.py:53-100 | from every reachable state all requests can be finished with no rollback |
| `ProtocolSafety.ActKeepsInv` | app/services/assessment.py:53-75 | every step of every transaction (lock, read, check, insert, commit, abort) keeps the table and lock invariant |
| `ProtocolSafety.RunKeepsInv` | app/services/assessment.py:53-75 | hence every run does |
| `ProtocolSafety.InitialInv` | app/services/assessment.py:53-60 | freshly arrived requests over any consistent tables meet the invariant |
| `ProtocolSafety.CommitOther` | app/services/assessment.py:63-75 | a commit leaves everything another transaction has read and still relies on true |
| `Serializability.RunIsSerial` | app/services/assessment.py:29-100 | serializability: every run of any requests ends with the tables that the committed requests would leave one after the other, in the order of their commits |
| `Serializability.CommitIsSerial` | app/services/assessment.py:53-100 | in every reachable state a COMMIT is allowed by the tables as they are then, changes them exactly as its request does alone, and gives its answer |
| `SerialRuns.AloneIsSerial` | app/services/attempts.py:85-145 | a request that runs alone has its effect and answer if the tables allow it, and otherwise is refused and changes nothing |
| `SerialRuns.CloserLeavesNoneOpen` | app/services/attempts.py:134-145 | over every run: when a submission of a pooled activity or a close commits, the learner has no open sitting on it, and no other sitting has changed |
| `SerialRuns.OnlyClosersClose` | app/services/attempts.py:134-145 | a sitting changes only from open to closed, at the commit of such a request of its own learner and activity |
| `SerialRuns.NextSittingIsNew` | app/services/attempts.py:85-131 | from then on an open request that finishes returns a sitting opened since, as the next variant if none was opened in between |
| `ProtocolTheorems.AttemptSafety` | app/services/assessment.py:53-75 | after every run a learner's attempt numbers on a test are exactly 1..used, none twice, and used is within max_attempts plus grants |
| `AttemptTables.ExactlyOneToUsed` | app/services/assessment.py:69-74 | a numbered table records exactly the numbers {1, ..., used} |
| `AttemptTables.NumberedAppend` | app/services/assessment.py:69-74 | inserting max + 1 keeps the numbering |
| `ProtocolTheorems.RunGrows` | app/services/attempt_policy.py:173-185 | no run loses a committed row: submissions, grants and certificates are only appended |
| `ProtocolTheorems.RevealIsSafe` | app/services/assessment.py:141-166 | once the key of a graded activity is shown to a learner who has not passed, by a caller reporting at least the recorded grants, every submission that finishes later on the run is refused while no grant is added |
| `ProtocolTheorems.LateRefused` | app/services/assessment.py:63-67 | once attempts are spent, every unfinished submission that finishes is refused while no grant is added |
| `RevealRuns.RecordsIff` | app/services/assessment.py:63-75 | a submission that arrives now can still be recorded if and only if attempts are left |
| `RevealRuns.LeakIsARun` | app/services/assessment.py:141-166 | a caller shows the key before a submission that is then recorded exactly in the leaking cases |
| `RevealRuns.SubmitPageLeaks` | app/web/learn.py:585-597 | one attempt used and one granted: the page shows the key and the granted attempt is recorded |
| `ProtocolTheorems.SpentStays` | app/services/attempt_policy.py:75-77 | and the number of attempts used stays what it was |
| `AttemptPolicy.SafeCallers` | app/services/assessment.py:141-166 | a caller never leaks the key, whatever is used, if and only if it reports at least the grants recorded |
| `AttemptPolicy.UnreportedGrantsLeak` | app/web/learn.py:585-597 | reporting none leaks exactly in the granted attempts that are left, with a concrete case |
| `AttemptPolicy.GrantedByActivity` | app/services/attempt_policy.py:93-105 | the grouped query's total for every activity is the one the refusal path sums for it alone; absent activities have none |
| `AttemptPolicy.NoneRemainingIffRefused` | app/services/attempt_policy.py:56-77 | the remaining count is zero exactly when a submission is refused, and None exactly when uncapped |
| `AttemptPolicy.RevealByMode` | app/services/assessment.py:141-166 | practice always shows the key, an exam never, a graded activity exactly to who has passed or used up the limit and the grants |
| `ProtocolTheorems.OneCertificate` | app/services/certificates.py:71-99 | after every run there is one certificate per learner and course, and every successful issuer returned that one |
| `ProtocolTheorems.CertificateOnlyWhenCompleted` | app/services/certificates.py:80-99 | a certificate appears only at the commit of a transaction that alone holds the completion row, which is completed |
| `ProtocolTheorems.OneOpenSitting` | app/services/attempts.py:96-122 | after every run at most one sitting per learner and activity is open, and the variant of each is the number of earlier ones |
| `ProtocolTheorems.OpenReturnsOpenSitting` | app/services/attempts.py:96-131 | an open request returns the learner's one open sitting, or the freshly drawn one |
| `ProtocolTheorems.ReopenReturnsSameQuestions` | app/services/attempts.py:97-99 | while a sitting stays open every later open request returns it with its stored questions, whatever bank it is given |
| `ProtocolTheorems.DrawIsPaper` | app/services/attempts.py:100-117 | a draw has min(count, pool) questions, all of the pool, none twice: those that the digest of this learner and variant ranks lowest, in the order of its second digest |
| `ExamEngine.SelectDraws` | app/services/exam_engine.py:116-149 | selection returns the lowest-ranked questions of the pool in presentation order |
| `AttemptRepair.RenumberEstablishesNumbering` | alembic/versions/0041_review_remediation.py:125-140 | from any table the renumbered attempts of every learner and activity are exactly 1..used |
| `AttemptRepair.RenumberFollowsCreation` | alembic/versions/0041_review_remediation.py:125-140 | the new numbers follow (created_at, id) and no other column changes |
| `AttemptRepair.CloseStaleKeepsNewest` | alembic/versions/0041_review_remediation.py:148-171 | exactly the newest open sitting per learner and activity stays open |
| `BestScores.BestScoresFor` | app/services/assessment.py:169-195 | the per-course loop is the best-of fold of its rows |
| `BestScores.BestScoresForPerson` | app/services/assessment.py:203-230 | the per-person loop likewise, and {} for an empty course list |
| `BestScores.BestScoresByCourse` | app/services/assessment.py:233-255 | the grouped loop builds the map of such folds |
| `BestScores.BestMapIsMaximum` | app/services/assessment.py:186-195 | the fold holds, for exactly the activities with a score, the maximum under (fraction, passed, override, time), the earliest on ties |
| `BestScores.ReportsScoreOfRecord` | app/services/assessment.py:169-195 | for every history: an activity is reported exactly when the person attempted it in those courses, with the highest fraction, then a pass, then an override, then the latest, then the first read |
| `BestScores.ThreeFormsAgree` | app/services/assessment.py:169-255 | the three readers agree on every activity for every history |
| `BestScores.PassedIffSomePass` | app/services/assessment.py:198-200 | an activity counts as passed exactly when some attempt passed |
| `BestScores.PassIsSticky` | app/services/assessment.py:169-186 | adding any score anywhere never un-passes an activity, if and only if the threshold is not negative |
| `CurriculumLoader.CycleSearch.HasCycle` | app/cli.py:1083-1100 | the search always ends and reports a cycle if and only if the graph has one |
| `CurriculumLoader.CycleSearch.Walk` | app/cli.py:1089-1096 | one walk blackens its course after everything it requires, keeps the stack, or exhibits a cycle; unvisited courses decrease |
| `CurriculumLoader.Tenant.Resolve` | app/cli.py:1063-1074 | stops at a course that requires itself, else sorts the declared pairs into edges and unknown names |
| `CurriculumLoader.Tenant.Load` | app/cli.py:1057-1120 | which refusal happens when, the table after the run, the reported counts, and that a refusal or dry run changes nothing |
| `CurriculumLoader.LoadPromises` | app/cli.py:1057-1120 | the same in the file's own terms: refused exactly for a course listed as requiring itself, a listed name that is not imported, or a declared cycle; else a row is in the table exactly if it is declared or was there and its course is no imported course of the file's discipline |
| `CurriculumLoader.DryRunForetells` | app/cli.py:1114-1117 | a dry run reports what the run would add and remove |
| `CurriculumLoader.Merge` | app/cli.py:1102-1113 | the two loops leave the declared edges plus the old edges out of scope, with exact counts |
| `CurriculumLoader.Adjacency` | app/cli.py:1084-1086 | the adjacency map holds exactly the declared edges |
| `PrerequisiteGraph.ProjectTwice` | app/cli.py:1102-1113 | an immediate rerun adds and removes nothing |
| `PrerequisiteGraph.AcyclicKeptIff` | app/cli.py:1083-1113 | an accepted file keeps every acyclic table acyclic if and only if all it requires is inside its discipline |
| `PrerequisiteGraph.RunsKeepUnlockable` | app/cli.py:1060-1113 | any sequence of such runs leaves a table in which some completion order unlocks every course |
| `CurriculumRuns.LoadsKeepUnlockable` | app/cli.py:1043-1120 | any files, of any disciplines and refused or not, whose requirements are courses of the file's own discipline leave a table in which every course can be unlocked |
| `CurriculumRuns.LoadKeepsAcyclicIff` | app/cli.py:1083-1113 | with distinct course ids an accepted file keeps every acyclic table acyclic if and only if the courses it requires are of its discipline |
| `PrerequisiteGraph.AcyclicIffUnlockable` | app/cli.py:1083-1083 | a graph is acyclic exactly when its courses can be completed in an order that unlocks each in turn |
| `PrerequisiteGraph.OrderedIsAcyclic` | app/cli.py:1089-1100 | a requirements-first order rules out every cycle |
| `PrerequisiteGraph.CrossDisciplineCycle` | app/cli.py:1103-1113 | two accepted files of different disciplines leave a cycle in the table |
| `Sanitizer.FilterIsPrune` | app/services/authoring.py:79-125 | for every document: the counter returns to its start if and only if every suppressed element is closed; such documents are printed exactly as the recursive prune; the others are if and only if nothing is lost; inside a suppressed element nothing is printed |
| `Sanitizer.FilterLoses` | app/services/authoring.py:87-116 | for every document the output is the pruned document up to the first unclosed suppressed element |
| `Sanitizer.DepthCounts` | app/services/authoring.py:87-109 | the counter ends higher by the number of unclosed suppressed elements |
| `Sanitizer.EmbedLosesText` | app/services/authoring.py:61-64 | an `<embed>` before a text: the prune keeps the text, the filter drops it |
| `Sanitizer.Sanitize` | app/services/authoring.py:128-132 | the filter object's output over a stream is the specified output |
| `Sanitizer.Filter.HandleStartTag` | app/services/authoring.py:87-103 | effect of a start tag on output and counter |
| `Sanitizer.Filter.HandleEndTag` | app/services/authoring.py:105-112 | effect of an end tag, the counter never below zero |
| `Sanitizer.Filter.HandleData` | app/services/authoring.py:114-116 | text is escaped and kept only outside suppressed elements |
| `Sanitizer.Concatenate` | app/services/authoring.py:82-125 | filtering a concatenation is filtering the parts, the counter carried over |
| `Sanitizer.UnclosedSilences` | app/services/authoring.py:61-64 | a document silences everything that may follow it if and only if it leaves a suppressed element unclosed |
| `Sanitizer.SafeUrlIsSafe` | app/services/authoring.py:66-76 | filtering a URL twice changes nothing more |
| `SanitizerSafety.LinkReplacedIff` | app/services/authoring.py:66-76 | a URL becomes "#" if and only if, skipped characters aside and in any case, it begins with javascript:, vbscript: or data: |
| `SanitizerSafety.DisguisesAreSeenThrough` | app/services/authoring.py:71-76 | inserting a whitespace or control character anywhere, or changing the case of an ASCII letter, never changes whether a URL is replaced |
| `SanitizerSafety.OutputIsHarmless` | app/services/authoring.py:87-125 | for every event stream, what the output reads back as has no suppressed element, event handler, comment or declaration, and no href or src that begins with such a scheme |
| `SanitizerSafety.SuppressedTextIsDropped` | app/services/authoring.py:61-64 | the text of each suppressed element is dropped |
| `SanitizerSafety.EscapedIsInert` | app/services/authoring.py:101-116 | escaped text holds no angle bracket, and in an attribute no quote |
| `SanitizerSafety.OrdinaryTextIsKept` | app/services/authoring.py:38-59 | the allowed tags and attributes are kept with their values |
| `SanitizerRoundTrip.SanitizeIsIdempotent` | app/services/authoring.py:79-132 | for every event stream, the output reads back as exactly the kept pieces, and sanitising what was read gives the same output |
| `SanitizerRoundTrip.ReadPieces` | app/services/authoring.py:101-116 | reading the printed pieces gives back exactly their tags, attributes and texts, adjacent texts merged |
| `SanitizerRoundTrip.MergedPrints` | app/services/authoring.py:101-116 | sanitising those events prints the pieces again |
| `SanitizerRoundTrip.UnescapeEscape` | app/services/authoring.py:101-116 | unescaping inverts escaping, with and without quotes |
| `Facilitators.SelectorsAreExclusive` | alembic/versions/0064_facilitator_nominations.py:172-204 | the argument checks accept exactly one selector, and an actor only with a nomination |
| `Facilitators.OldestFirstIsOldest` | alembic/versions/0064_facilitator_nominations.py:206-244 | candidates are min(limit, n) different rows in (created_at, id) order, none younger than one left out |
| `FacilitatorSafety.ActKeepsInv` | alembic/versions/0064_facilitator_nominations.py:206-358 | every step of every caller and of the other writers keeps counts and row locks consistent |
| `FacilitatorSafety.OneActivationPerNomination` | alembic/versions/0064_facilitator_nominations.py:288-356 | after every run: one audit row per activation, at most one activation per time a nomination became pending, as many notices to a person as activations of theirs |
| `FacilitatorSafety.StepEarns` | alembic/versions/0064_facilitator_nominations.py:288-326 | a nomination turns active only through a call that found it eligible |
| `FacilitatorEligibility.ActiveWasEligible` | alembic/versions/0064_facilitator_nominations.py:288-326 | over every run, a nomination that becomes active was turned active by a call whose own recheck found it pending, with an active person and a non-empty, fully completed requirement set, and which kept it until its COMMIT |
| `FacilitatorEligibility.StaysEligibleIff` | alembic/versions/0064_facilitator_nominations.py:206-326 | while a call holds an earned nomination, a step keeps it eligible if and only if it neither deactivates the person nor takes back a required completion |
| `FacilitatorEligibility.EligibleThroughoutIff` | alembic/versions/0064_facilitator_nominations.py:288-326 | it is eligible at every moment from that recheck to the COMMIT if and only if no step in between does so |
| `FacilitatorEligibility.LockFreezes` | alembic/versions/0064_facilitator_nominations.py:243-268 | the row lock keeps the nomination and its requirements as they were rechecked |
| `FacilitatorLiveness.SomeCallMoves` | alembic/versions/0064_facilitator_nominations.py:206-268 | deadlock freedom: in every state of every run with an unfinished call, some call can take its next step |
| `FacilitatorLiveness.WaiterMoves` | alembic/versions/0064_facilitator_nominations.py:243-268 | following the waits of targeted calls comes to a call that can step, because each waits for a nomination after all it holds |
| `FacilitatorLiveness.ActKeepsOrdered` | alembic/versions/0064_facilitator_nominations.py:206-268 | every step of every caller and other writer, renominations included, keeps what a call still wants in (created_at, id) order after what it holds |
| `FacilitatorLiveness.CallsCanFinish` | alembic/versions/0064_facilitator_nominations.py:206-358 | from every state of every run all calls can be finished with no rollback |
| `FacilitatorActors.ActivatedByNominator` | alembic/versions/0064_facilitator_nominations.py:281-348 | over every run: a nomination that turns active does so through a call without an actor or one whose actor nominated it, and the audit rows written with it name that actor |
| `FacilitatorTargeted.UncontendedById` | alembic/versions/0064_facilitator_nominations.py:244-356 | a call for one nomination that meets no lock activates it if and only if it is pending with an active person and completed requirements and the actor, if named, nominated it; otherwise the tables end unchanged |
| `FacilitatorTargeted.UncontendedCourse` | app/services/facilitator_nominations.py:401-424 | a call for a completed course that meets no lock activates exactly the person's deserving nominations that require it |
| `FacilitatorSweep.UncontendedSweep` | alembic/versions/0064_facilitator_nominations.py:206-358 | a sweep that meets no lock and no other writer commits exactly the oldest min(limit, eligible) rows |
| `FacilitatorSweep.SweepLeaves` | alembic/versions/0064_facilitator_nominations.py:206-244 | exactly those leave the eligible set, and all are older than the rest |
| `FacilitatorSweep.LeftAreLater` | alembic/versions/0064_facilitator_nominations.py:241-244 | what a sweep leaves was created after everything it takes, or at the same time with a greater id |
| `FacilitatorSweep.Backlog` | alembic/versions/0064_facilitator_nominations.py:206-244 | k sweeps with limit L leave max(E - kL, 0) eligible rows |
| `FacilitatorSweep.DrainedAfter` | alembic/versions/0064_facilitator_nominations.py:206-244 | the backlog is empty after k sweeps if and only if k is at least ceil(E / L) |
| `FacilitatorSweep.NomineeMayLeaveBeforeCommit` | alembic/versions/0064_facilitator_nominations.py:288-326 | a concrete run in which a nomination is activated for a person no longer active |
| `AdmissionsLedger.LedgerExplainsStatus` | app/services/admissions.py:725-778 | in every reachable state the transition events chain from applied to the current status along allowed edges |
| `AdmissionsLedger.PhaseNeverFalls` | app/services/admissions.py:47-55 | the phase of later events is never lower, and from accepted on strictly higher |
| `AdmissionsLedger.EnteredAtMostOnce` | app/services/admissions.py:47-55 | accepted and onboarding are entered at most once, enrolled and rejected end the ledger, nothing returns to applied |
| `AdmissionsLedger.PathToEnrolled` | app/services/admissions.py:47-55 | every ledger that ends enrolled ends accepted, onboarding, enrolled |
| `AdmissionsLedger.AcceptCompletes` | app/services/admissions.py:688-712 | an offered accept always succeeds, ends in onboarding with the checklist seeded, and leaves one event per step of its path |
| `AdmissionsLedger.OnboardingSeeds` | app/services/onboarding.py:20-51 | entering onboarding adds each missing default task as pending and keeps the others; only a taken entrance assessment is done at once |
| `OnboardingRuns.EnrolledAfterOwnTasks` | app/services/admissions.py:862-894 | over every run from an empty checklist: before "enrolled now" the details and the orientation were each completed by a request of their own, after they were seeded |
| `OnboardingRuns.WorkedChecklistEnrols` | app/services/admissions.py:688-894 | accept, then the three tasks: the next automatic attempt reports "enrolled now", and none before |
| `AdmissionsLedger.PolicyFailsIff` | app/services/admissions.py:781-823 | the policy fails exactly on a passing score without an active intake, and otherwise decides onboarding or waitlisted by the threshold |
| `AdmissionsLedger.PassingWithoutTrackFails` | app/services/admissions.py:781-823 | a concrete passing applicant with a cohort and no track, on whom the policy fails |
| `AdmissionsOutcomes.TransitionExactly` | app/services/admissions.py:725-778 | who can move where: one step forward, off to or back from the waiting list, or rejected while open, and placed in an active intake from accepted on; one event, the notes unless a reason is given, the checklist on entering onboarding, nothing else |
| `AdmissionsOutcomes.OfferedIsDone` | app/services/admissions.py:617-722 | a review action is carried out exactly when it is offered, and reaches its target status |
| `AdmissionsOutcomes.PolicyExactly` | app/services/admissions.py:781-823 | what the policy decides, for whom, and with which note |
| `AdmissionsOutcomes.GradedIsDecided` | app/services/admissions.py:781-823 | an applicant placed in an open intake and then graded is taken to onboarding, waiting-listed or left alone by score, threshold and validity, with the assessment task done |
| `AdmissionsLedger.NamesAreStatuses` | app/services/admissions.py:725-740 | a status name stands for one status, and no other name is known |
| `AdmissionsWriters.Applicant.Transition` | app/services/admissions.py:725-778 | the row after a transition by name, or the refusal with the row unchanged |
| `AdmissionsWriters.Applicant.MoveTo` | app/services/admissions.py:741-778 | status, notes, ledger event and seeded tasks after one allowed move |
| `AdmissionsWriters.Applicant.SeedOnboarding` | app/services/admissions.py:771-777 | missing default tasks are added pending, existing ones kept, a taken assessment carried forward |
| `AdmissionsWriters.Applicant.Walk` | app/services/admissions.py:695-703 | the transition loop applies its path in order up to the first refusal |
| `AdmissionsWriters.Applicant.AdminReview` | app/services/admissions.py:617-722 | the row after a review action, or unchanged when it is not available |
| `AdmissionsWriters.Applicant.AssessmentPolicy` | app/services/admissions.py:781-823 | the row after the policy; it fails only without an active intake |
| `Enrolment.Register.EnrolApplicant` | app/services/admissions.py:897-966 | tables and applicant after enrolment, or both unchanged on refusal |
| `Enrolment.Register.TryAutoEnrol` | app/services/admissions.py:862-894 | tables, applicant and report after an automatic attempt |
| `Enrolment.Register.EnsurePerson` | app/services/admissions.py:923-934 | reuses the first person with the email or appends one |
| `Enrolment.Register.EnsureEnrollment` | app/services/admissions.py:936-956 | reuses the enrolment and sets its track, or appends an active student row |
| `Enrolment.EnrolEstablishes` | app/services/admissions.py:912-966 | success needs onboarding, all tasks and the assigned cohort, and leaves exactly one person for the email and one enrolment in the cohort, on the track, with existing rows reused |
| `EnrolmentRuns.ReportEstablishes` | app/services/admissions.py:862-894 | "enrolled now" means all tasks done, one person, one enrolment on the assigned track, one student grant, and an invite exactly without a credential |
| `EnrolmentRuns.SilentUntilReady` | app/services/admissions.py:876-881 | nothing happens exactly when the applicant is not ready, and it fails exactly when ready without an active intake |
| `EnrolmentRuns.EnrolledNowExactly` | app/services/admissions.py:862-894 | over every run it is reported once if some automatic attempt finds the applicant ready with an active intake, and otherwise never |
| `EnrolmentRuns.EnrolledNowOnce` | app/services/admissions.py:862-894 | over every run of enrolments, transitions and other writers, deletions included, it is reported at most once per applicant |
| `EnrolmentRuns.InvitedIffNoPassword` | app/services/admissions.py:862-894 | over every run a report comes with an invitation exactly for a learner who has no password then |
| `EnrolmentRuns.ReportLasts` | app/services/admissions.py:862-966 | what a report said (the person with the email, the enrolment in the cohort on the track, the grant) is true at every later moment if and only if no later step breaks it |
| `EnrolmentRuns.StaysEnlistedIff` | app/web/accounts.py:452-466 | a step keeps it if and only if it does not remove the person or the grant, change the email, or write another track |
| `EnrolmentRuns.TrackIsLastWritten` | app/services/admissions.py:936-956 | after every run a learner's track in a cohort is the one last written, by any enrolment or other writer |
| `EnrolmentFacts.EnlistedMeans` | app/services/admissions.py:849-956 | exactly one person row, one enrolment and one student grant say so |
| `EnrolmentFacts.RemovalKeepsUnique` | app/api/persons.py:104-122 | deleting a person with its cascades keeps the tables free of duplicates |
| `EnrolmentFacts.RemovalForgets` | app/api/persons.py:104-122 | nothing is left of a removed person in people, enrolments, grants and credentials, and everyone else keeps theirs |
| `EnrolmentRuns.RunKeepsUnique` | app/services/admissions.py:849-859 | all writers together keep people, enrolments and grants free of duplicates |
| `EnrolmentRuns.SecondApplicationMovesTrack` | app/services/admissions.py:925-956 | two applications with one email and different tracks: both are told enrolled, and the second moves the one enrolment off the first's track |
| `Intake.Applicants.SubmitApplication` | app/services/admissions.py:91-181 | the table and outcome of a local or referenced submission |
| `Intake.Applicants.SubmitExternalApplication` | app/services/admissions.py:184-248 | the table and outcome of an external one, with whether it created the row |
| `Intake.Applicants.ApplyProfile` | app/services/admissions.py:77-88 | supplied profile fields replace, blank ones keep, other keys are ignored |
| `Intake.SubmitKeepsKeys` | app/services/admissions.py:137-181 | an accepted submission lands on the one row of its email or reference and creates it exactly when there was none |
| `Intake.SubmitExternalKeepsKeys` | app/services/admissions.py:213-248 | likewise by reference; refused exactly when the reference belongs to another email |
| `Intake.RefusedIff` | app/services/admissions.py:137-180 | serially, "already exists" happens only for an empty-string reference, and exactly when |
| `Intake.EmptyReferenceTwice` | app/services/admissions.py:137-180 | the same submission with an empty reference is accepted once and then refused |
| `IntakeRuns.ProfileIsLastSupplied` | app/services/admissions.py:77-181 | over every serial mix there is one row per key, and its profile is field by field the last non-null value given for the key |
| `IntakeRuns.RowIsHistory` | app/services/admissions.py:91-248 | over every serial mix: each key has a row exactly when a step about it made one, with the last names, the last non-blank phone and program, the last cohort and track and the status last set |
| `IntakeRuns.SuppliedIsTold` | app/services/admissions.py:60-88 | the answers that count are the non-null ones to the form's thirteen questions |
| `IntakeRuns.SubmissionsKeepStatus` | app/services/admissions.py:91-248 | no run of submissions changes the status of a row, and new rows are applied |
| `BankBalance.BalanceStats` | app/services/bank_lint.py:121-170 | the loop lists exactly the questions whose answer stands out by length, and the ratios |
| `BankBalance.LongTest` | app/services/bank_lint.py:161-166 | the counting test means: strictly longer than every other option |
| `BankBalance.ShortTest` | app/services/bank_lint.py:167-168 | the counting test means: strictly shorter than every other option |
| `BankRebalance.BalanceTargets` | app/services/bank_lint.py:297-350 | the loop reports exactly the questions whose answer is strictly extreme, with targets by sorted length |
| `BankRebalance.TargetsStraddleIff` | app/services/bank_lint.py:336-340 | under any rounding to nearest, the targets straddle the answer if and only if there are three distractors and nine characters |
| `BankRebalance.TargetsMeetBand` | app/services/bank_lint.py:336-340 | and, for any positive number of distractors, the answer is within 1/1.3 to 1.3 of their mean if and only if it has at least seven characters |
| `BankRebalance.ReportedTargetsFit` | app/services/bank_lint.py:314-350 | the targets reported for a question, zipped and sorted, straddle its answer if and only if it has three distractors and nine characters, and meet the band if and only if it has seven characters |
| `BankProposals.ProposeBalance` | app/services/bank_lint.py:368-417 | the proposals for a bank, question by question |
| `BankProposals.ProposedIff` | app/services/bank_lint.py:385-395 | an edit is proposed exactly when the answer is strictly longest |
| `BankProposals.ProposalContents` | app/services/bank_lint.py:390-416 | it edits a distractor, never the answer, by the first hedge that reaches |
| `BankProposals.HedgeIsShortest` | app/services/bank_lint.py:358-365 | which is the shortest hedge that reaches |
| `BankProposals.SecondPassIff` | app/services/bank_lint.py:390-416 | a second pass is silent on a question if and only if the hedge covers the stripped full stops (or, when the suggestion is the answer's text, too few distractors remain) |
| `BankProposals.EditBalances` | app/services/bank_lint.py:377-416 | with at most one trailing full stop and a suggestion other than the answer the edit settles, the answer does not end strictly longest, and it ends strictly shortest if and only if all its distractors have one text and the suggestion is longer |
| `BankProposals.EditExtremes` | app/services/bank_lint.py:377-416 | for every suggestion, exactly when the edit leaves the answer strictly longest and exactly when strictly shortest |
| `BankProposals.EqualDistractorsOverturn` | app/services/bank_lint.py:377-416 | answer "aaaa" over "bb" twice: the edit makes the strictly longest option the strictly shortest |
| `BankProposals.TwoStopsNeedAnotherPass` | app/services/bank_lint.py:390-416 | a distractor "x.." under fifteen characters: the edit is too short, and a second pass proposes again |
| `BankProposals.BankSecondPassIff` | app/services/bank_lint.py:368-417 | the second pass over a whole bank is silent if and only if every edit settles |
| `BankProposals.LinterAgrees` | app/services/bank_lint.py:137-166 | with one correct answer and three options, the linter flags it as longest if and only if the tool proposes an edit, the kind is linted and the answer is listed once |
| `BankLinter.BalanceViolations` | app/services/bank_lint.py:173-206 | the violations of a bank: none under five counted questions, else each share over 0.40 and the mean ratio outside 1/1.3 to 1.3 |
| `BankLinter.ViolationsAre` | app/services/bank_lint.py:173-206 | exactly which violations are reported: over two fifths of five or more counted questions, and a mean ratio outside 1/1.3 to 1.3 |
| `BankLinter.FittedQuestion` | app/services/bank_lint.py:137-170 | with its distractors at their target lengths an answer is never strictly longest, is strictly shortest if and only if it has fewer than eight characters, and is within the ratio if and only if it has seven |
| `BankLinter.BriefAnswerStaysShortest` | app/services/bank_lint.py:336-340 | a concrete question at its target lengths whose answer of seven characters is strictly shortest |
| `BankLinter.FittedBankShares` | app/services/bank_lint.py:173-206 | a bank of such questions is flagged for extreme answers if and only if over two fifths of five or more answers have fewer than eight characters, and then as shortest |
| `BankLinter.FittedBankPasses` | app/services/bank_lint.py:173-206 | a bank of such questions whose answers have eight characters or more has no violation |
| `PercentileBands.RecomputeLevels` | app/cli.py:815-857 | the table after the command, each refusal exactly, and the number of rows changed |
| `PercentileBands.BandsExactly` | app/cli.py:815-857 | a run bands exactly the scored sittings of the cohort that are not marked invalid, by the quarter and three-quarter ranks of their scores; a changed band bumps the version and clears the sync |
| `PercentileBands.RefusedChangesNothing` | app/cli.py:831-847 | a refused or dry run changes no sitting |
| `PercentileBands.EmptySelectionFails` | app/cli.py:828-841 | an empty table with a minimum of zero: the IndexError |
| `PercentileBands.Reband` | app/cli.py:848-855 | the in-place loop bumps version and clears sync exactly where the band changes |
| `PercentileBands.BandsAreMonotone` | app/cli.py:850-850 | a higher score never gets a lower band |
| `PercentileBands.OrderIsIrrelevant` | app/cli.py:838-850 | in a reordered table every sitting gets the same result |
| `PercentileBands.RerunIsIdle` | app/cli.py:848-855 | a rerun changes no row |
| `PercentileBands.BottomIsFilled` | app/cli.py:838-850 | at least floor((n-1)/4) + 1 sittings are beginner |
| `PercentileBands.TopIsFilled` | app/cli.py:838-850 | at least n - floor(3(n-1)/4) are advanced unless the quartiles coincide |
| `PercentileBands.MiddleIsEmpty` | app/cli.py:850-850 | when they coincide nobody is intermediate |
| `CheckpointTransfer.Database.Upgrade` | alembic/versions/0066_erp_completion_checkpoint.py:64-104 | the checkpoints become exactly the acknowledgements, and the equality check cannot fail |
| `CheckpointTransfer.Database.Downgrade` | alembic/versions/0066_erp_completion_checkpoint.py:107-151 | refused exactly on a conflict, else the times are written back and the table dropped |
| `CheckpointTransfer.Database.RequireEqual` | alembic/versions/0066_erp_completion_checkpoint.py:44-61 | the full join finds no mismatch exactly when the two tables are equal |
| `CheckpointTransfer.RoundTrip` | alembic/versions/0066_erp_completion_checkpoint.py:64-151 | upgrade then downgrade is the identity |
| `CheckpointTransfer.VerificationHolds` | alembic/versions/0066_erp_completion_checkpoint.py:135-149 | after the conflict check the final verification cannot fail |
| `CheckpointTransfer.UnfaithfulIff` | alembic/versions/0066_erp_completion_checkpoint.py:135-149 | alone it would notice only a checkpoint without a completion |
| `CheckpointTransfer.ReversalKeeps` | alembic/versions/0066_erp_completion_checkpoint.py:112-134 | a reversal not refused keeps every acknowledgement of either side and every row without a checkpoint |
| `CheckpointTransfer.ReversalIsAccepted` | app/services/erp_sync.py:127-230 | whatever pushes, completions and deletions follow an upgrade, the reversal is accepted |
| `CheckpointTransfer.AcknowledgementSurvives` | app/services/erp_sync.py:169-177 | an acknowledgement carried over is neither restamped nor cleared, and comes back unchanged |
| `CheckpointTransfer.CheckpointIsFirstDelivery` | app/services/erp_sync.py:127-230 | over every run after an upgrade a checkpoint holds the time carried over, or that of the first delivered push of the finished course |
| `CheckpointTransfer.PushAnswers` | app/services/erp_sync.py:162-230 | a push is answered as synced exactly when delivered or acknowledged before, and never meets a broken history |

## Left out

- Lab grading and lab submissions: they write submissions without the learner lock, so the numbering theorems are about `mcq_test` activities.
- Completion recompute: whether a course becomes completed is a parameter of the request; its lock, anchor insert and write are modelled, its error handling is not.
- Nomination row locks taken inside a completion recompute are not part of the deadlock model; activation calls are a machine of their own, in which a nomination is its write followed by its call.
- FOR UPDATE on `people` by account administration, deletion of accounts, and a learner row that is missing.
- Draws stratified by category, option order, validity gates and time limits of the exam engine. The draw variant is kept with the sitting in the model; it is not a stored column.
- YAML parsing and argument parsing of the command line.
- Tenants, row-level security, grants and policies: one tenant's rows are modelled.
- Floating point: fractions, thresholds and percentiles are exact rationals; target rounding is proved for every rounding to nearest.
- The HTML parser and Markdown: the model starts at the parser's events. The reader used in the round trip accepts the emitted language only. Media embeds and the editor's text parser are left out.
- Assessment invitations, resets and access extensions in admissions: they leave status and transition events alone and are one action here. Tokens, emails and the initial password invite itself are a flag.
- `EnrolmentRuns.EnrolledNowOnce`: about serial runs; two simultaneous first enrolments are decided by the unique constraints, which are not modelled as concurrent.
- The raw administrative transition from onboarding to enrolled is a step of the runs but enrols nobody, so the enrolment facts are stated for enrolment calls.
- Trimming and lower-casing of emails and names: submissions carry them canonical. Names of persons are not modelled, and a change of email is any change, not only its normalisation.
- `IntakeRuns.ProfileIsLastSupplied`: for an absent or non-empty reference; the empty-string reference is `Intake.RefusedIff`.
- `IntakeRuns.RowIsHistory`: likewise.
- The texts of the linter's messages, its repetition per category, its other rules, and options that are not strings.
- Table and column constraints, privileges and lock timeouts of the migrations, and ORM identity (one row loaded twice).
- Certificate serials and drawing, notifications that are best effort, metrics, routers and the remaining services, which would only add easy members.
