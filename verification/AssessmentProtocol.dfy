/** The assessment writers as concurrent transactions under PostgreSQL's READ
    COMMITTED level: each request is a program whose steps interleave freely
    with the steps of every other request.

    A step either takes a row lock, reads committed rows (plus the
    transaction's own writes), or buffers a write; COMMIT publishes the buffer
    and releases every lock. The lock taken on the learner's `people` row is a
    parameter of the machine, so that the choice made by the code can be
    compared with the alternatives. */
module AssessmentProtocol {
  import opened Options
  import opened AttemptTables
  import opened AttemptPolicy
  import opened ExamEngine

  // ---- Row locks (PostgreSQL 16, section 13.3.2, table 13.3) ----

  datatype LockMode = KeyShare | Share | NoKeyUpdate | Update

  predicate Conflicts(a: LockMode, b: LockMode) {
    match (a, b)
    case (Update, _) => true
    case (_, Update) => true
    case (NoKeyUpdate, NoKeyUpdate) => true
    case (NoKeyUpdate, Share) => true
    case (Share, NoKeyUpdate) => true
    case _ => false
  }

  /** A learner's completion record for one course. */
  datatype CourseKey = CourseKey(person: Id, course: Id)

  datatype Resource = PersonRow(person: Id) | CompletionRow(ck: CourseKey)
  datatype Lock = Lock(res: Resource, mode: LockMode)

  // ---- Tables ----

  datatype Status = InProgress | Completed
  datatype Certificate = Certificate(ck: CourseKey, serial: nat)

  datatype Db = Db(
    subs: seq<Submission>,
    grants: seq<Grant>,
    sittings: seq<Sitting>,
    completions: map<CourseKey, Status>,
    certs: seq<Certificate>)

  // ---- Activities and requests ----

  /** `pool` is the activity's question_count; `mcq` is type == "mcq_test". */
  datatype Terms = Terms(course: Id, maxAttempts: Option<int>, pool: Option<int>, manual: bool, mcq: bool)

  datatype Config = Config(learnerMode: LockMode, terms: Id -> Terms, digest: Digest)

  /** `complete` is what the completion recompute finds: every activity of the
      course passed. `serial` is the serial a certificate would get. */
  datatype Request =
    | Submit(key: Key, complete: bool, serial: nat)
    | Open(key: Key, bank: seq<string>)
    | Close(key: Key)
    | GrantExtra(key: Key, extra: nat, reason: string)
    | Rescore(ck: CourseKey, complete: bool, serial: nat)
    | Issue(ck: CourseKey, serial: nat)

  datatype Outcome =
    | Refused
    | Recorded
    | Seated(sitting: nat)
    | Certified(cert: Certificate)

  datatype Pc =
    // attempts.close_open_attempt
    | LockForClose | CloseSitting
    // assessment.submit_activity
    | LockForSubmit | CountUsed | SumGrants | Admit | NumberAttempt | InsertSubmission | LearnerEvent
    // completion.recompute_completion over completion_aggregate
    | EnsureAnchor | LockAnchor | Recompute
    // certificates.issue_certificate
    | ReadCertificate | LockCompletion | RecheckCertificate | InsertCertificate | CertificateEvent
    // attempts.open_or_create_attempt
    | LockForOpen | FindSitting | CountPrior | InsertSitting | SittingEvent
    // attempt_policy.grant_extra_attempt
    | InsertGrant
    | Commit
    | Done(outcome: Outcome)

  /** Writes buffered until COMMIT. `anchor` is a completion row inserted by
      this transaction and not yet visible to any other. */
  datatype Writes = Writes(
    sub: Option<Submission>,
    close: Option<nat>,
    seat: Option<Sitting>,
    grant: Option<Grant>,
    anchor: bool,
    status: Option<Status>,
    cert: Option<Certificate>)

  const NO_WRITES := Writes(None, None, None, None, false, None, None)

  /** `used`, `granted` and `number` are what the program has read so far. */
  datatype Tx = Tx(
    req: Request,
    pc: Pc,
    held: set<Lock>,
    used: nat,
    granted: nat,
    number: int,
    writes: Writes,
    outcome: Outcome)

  datatype State = State(db: Db, txs: seq<Tx>)

  function PersonOf(r: Request): Id {
    if r.Rescore? || r.Issue? then r.ck.person else r.key.person
  }

  function CourseOf(cfg: Config, r: Request): CourseKey {
    if r.Rescore? || r.Issue? then r.ck else CourseKey(r.key.person, cfg.terms(r.key.activity).course)
  }

  function Start(cfg: Config, r: Request): Tx {
    var pc := match r
      case Submit(k, _, _) => if cfg.terms(k.activity).pool.Some? then LockForClose else LockForSubmit
      case Open(_, _) => LockForOpen
      case Close(_) => LockForClose
      case GrantExtra(_, _, _) => InsertGrant
      case Rescore(_, _, _) => EnsureAnchor
      case Issue(_, _) => ReadCertificate;
    Tx(r, pc, {}, 0, 0, 0, NO_WRITES, Recorded)
  }

  // ---- What a step waits for ----

  function LearnerLock(cfg: Config, t: Tx): Lock { Lock(PersonRow(PersonOf(t.req)), cfg.learnerMode) }
  function CompletionLock(cfg: Config, t: Tx): Lock { Lock(CompletionRow(CourseOf(cfg, t.req)), Update) }
  function ForeignKeyLock(t: Tx): Lock { Lock(PersonRow(PersonOf(t.req)), KeyShare) }

  /** The row lock the next step must take first. A SELECT ... FOR UPDATE locks
      only rows it can see: committed ones, or this transaction's own. */
  function Needs(cfg: Config, db: Db, t: Tx): Option<Lock> {
    match t.pc
    case LockForClose => Some(LearnerLock(cfg, t))
    case LockForOpen => Some(LearnerLock(cfg, t))
    case LockForSubmit =>
      if t.req.Submit? && cfg.terms(t.req.key.activity).mcq then Some(LearnerLock(cfg, t)) else None
    case LearnerEvent => Some(ForeignKeyLock(t))
    case SittingEvent => Some(ForeignKeyLock(t))
    case CertificateEvent => Some(ForeignKeyLock(t))
    case LockAnchor => Some(CompletionLock(cfg, t))
    case LockCompletion =>
      if CourseOf(cfg, t.req) in db.completions || t.writes.anchor then Some(CompletionLock(cfg, t)) else None
    case _ => None
  }

  ghost predicate Grantable(txs: seq<Tx>, i: nat, lock: Lock) {
    forall j, l :: 0 <= j < |txs| && j != i && l in txs[j].held && l.res == lock.res ==> !Conflicts(l.mode, lock.mode)
  }

  /** The row `t` inserts next has the unique key of a row that `o` has inserted
      and not yet committed. The keys are (person, course) for completions and
      certificates, (activity, person, attempt_no) for submissions, and
      (activity, person) for open sittings. */
  predicate SameUniqueKey(cfg: Config, t: Tx, o: Tx) {
    match t.pc
    case EnsureAnchor => o.writes.anchor && CourseOf(cfg, o.req) == CourseOf(cfg, t.req)
    case InsertSubmission => t.req.Submit? && o.writes.sub == Some(Submission(t.req.key, t.number))
    case InsertSitting => t.req.Open? && o.writes.seat.Some? && o.writes.seat.value.key == t.req.key
    case InsertCertificate => o.writes.cert.Some? && o.writes.cert.value.ck == CourseOf(cfg, t.req)
    case _ => false
  }

  /** An INSERT waits for an uncommitted row on the same unique key. */
  ghost predicate InsertBlocked(cfg: Config, s: State, i: nat)
    requires i < |s.txs|
  {
    exists j :: 0 <= j < |s.txs| && j != i && SameUniqueKey(cfg, s.txs[i], s.txs[j])
  }

  predicate Finished(t: Tx) { t.pc.Done? }

  ghost predicate Enabled(cfg: Config, s: State, i: nat) {
    && i < |s.txs|
    && !Finished(s.txs[i])
    && (Needs(cfg, s.db, s.txs[i]).Some? ==> Grantable(s.txs, i, Needs(cfg, s.db, s.txs[i]).value))
    && !InsertBlocked(cfg, s, i)
  }

  // ---- The steps ----

  function Fail(t: Tx): Tx { t.(pc := Done(Refused), held := {}, writes := NO_WRITES, outcome := Refused) }

  function FindCert(certs: seq<Certificate>, ck: CourseKey): (r: Option<Certificate>)
    ensures r.Some? ==> r.value in certs && r.value.ck == ck
    ensures r.None? ==> forall i :: 0 <= i < |certs| ==> certs[i].ck != ck
  {
    if certs == [] then None
    else if certs[0].ck == ck then Some(certs[0])
    else FindCert(certs[1..], ck)
  }

  /** The completion status this transaction sees. */
  function SeenStatus(cfg: Config, db: Db, t: Tx): Option<Status> {
    if t.writes.status.Some? then t.writes.status
    else if t.writes.anchor then Some(InProgress)
    else if CourseOf(cfg, t.req) in db.completions then Some(db.completions[CourseOf(cfg, t.req)])
    else None
  }

  /** The drawn paper: none when the activity or the bank offers no question. */
  function Draw(cfg: Config, key: Key, variant: nat, bank: seq<string>): seq<string> {
    var pool := cfg.terms(key.activity).pool;
    var count := if pool.Some? then pool.value else 0;
    if count <= 0 || bank == [] then [] else Select(cfg.digest, key.person, variant, bank, count)
  }

  /** The characters Python's `str.strip` removes. */
  predicate IsSpace(c: char) {
    || '\t' <= c <= '\r' || '\U{1C}' <= c <= ' ' || c == '\U{85}' || c == '\U{A0}' || c == '\U{1680}'
    || '\U{2000}' <= c <= '\U{200A}' || c == '\U{2028}' || c == '\U{2029}' || c == '\U{202F}' || c == '\U{205F}'
    || c == '\U{3000}'
  }

  predicate Blank(s: string) { forall i :: 0 <= i < |s| ==> IsSpace(s[i]) }

  /** attempts.close_open_attempt and assessment.submit_activity up to the row. */
  predicate Submitting(pc: Pc) {
    || pc.LockForClose? || pc.CloseSitting? || pc.LockForSubmit? || pc.CountUsed? || pc.SumGrants? || pc.Admit?
    || pc.NumberAttempt? || pc.InsertSubmission?
  }

  /** completion.recompute_completion, entered from a recorded submission. */
  predicate Completing(pc: Pc) { pc.LearnerEvent? || pc.EnsureAnchor? || pc.LockAnchor? || pc.Recompute? }

  predicate Certifying(pc: Pc) {
    || pc.ReadCertificate? || pc.LockCompletion? || pc.RecheckCertificate? || pc.InsertCertificate?
    || pc.CertificateEvent?
  }

  /** The steps of each service: `u` is `t` with the lock of the step granted. */
  function StepSubmission(cfg: Config, db: Db, t: Tx, u: Tx): Tx {
    match t.pc
    case LockForClose => u.(pc := CloseSitting)
    case CloseSitting =>
      if t.req.Submit? || t.req.Close? then
        u.(writes := u.writes.(close := OpenSitting(db.sittings, t.req.key)),
           pc := if t.req.Close? then Commit else LockForSubmit)
      else Fail(t)
    case LockForSubmit =>
      if t.req.Submit? && cfg.terms(t.req.key.activity).mcq then u.(pc := CountUsed) else Fail(t)
    case CountUsed =>
      if t.req.Submit? then u.(used := Used(db.subs, t.req.key), pc := SumGrants) else Fail(t)
    case SumGrants =>
      if t.req.Submit? then u.(granted := Granted(db.grants, t.req.key), pc := Admit) else Fail(t)
    case Admit =>
      if t.req.Submit? && !Exhausted(cfg.terms(t.req.key.activity).maxAttempts, t.used, t.granted)
      then u.(pc := NumberAttempt) else Fail(t)
    case NumberAttempt =>
      if t.req.Submit? then u.(number := MaxNo(db.subs, t.req.key) + 1, pc := InsertSubmission) else Fail(t)
    case InsertSubmission =>
      if t.req.Submit? && Submission(t.req.key, t.number) !in db.subs
      then u.(writes := u.writes.(sub := Some(Submission(t.req.key, t.number))), pc := LearnerEvent)
      else Fail(t)
    case _ => t
  }

  function StepCompletion(cfg: Config, db: Db, t: Tx, u: Tx): Tx {
    match t.pc
    case LearnerEvent =>
      if t.req.Submit? then u.(pc := if cfg.terms(t.req.key.activity).manual then Commit else EnsureAnchor) else Fail(t)
    case EnsureAnchor =>
      u.(writes := u.writes.(anchor := CourseOf(cfg, t.req) !in db.completions), pc := LockAnchor)
    case LockAnchor => u.(pc := Recompute)
    case Recompute =>
      if t.req.Submit? || t.req.Rescore? then
        var first := t.req.complete && SeenStatus(cfg, db, t) != Some(Completed);
        u.(writes := u.writes.(status := Some(if t.req.complete then Completed else InProgress)),
           pc := if first then ReadCertificate else Commit)
      else Fail(t)
    case _ => t
  }

  function StepCertificate(cfg: Config, db: Db, t: Tx, u: Tx): Tx {
    var ck := CourseOf(cfg, t.req);
    match t.pc
    case ReadCertificate =>
      var found := FindCert(db.certs, ck);
      if found.Some? then u.(outcome := if t.req.Issue? then Certified(found.value) else t.outcome, pc := Commit)
      else u.(pc := LockCompletion)
    case LockCompletion => u.(pc := RecheckCertificate)
    case RecheckCertificate =>
      var found := FindCert(db.certs, ck);
      if found.Some? then u.(outcome := if t.req.Issue? then Certified(found.value) else t.outcome, pc := Commit)
      else if SeenLocked(cfg, db, t) != Some(Completed) then Fail(t)
      else u.(pc := InsertCertificate)
    case InsertCertificate =>
      if (t.req.Submit? || t.req.Rescore? || t.req.Issue?) && FindCert(db.certs, ck).None? then
        var cert := Certificate(ck, t.req.serial);
        u.(writes := u.writes.(cert := Some(cert)),
           outcome := if t.req.Issue? then Certified(cert) else t.outcome,
           pc := CertificateEvent)
      else Fail(t)
    case CertificateEvent => u.(pc := Commit)
    case _ => t
  }

  function StepSitting(cfg: Config, db: Db, t: Tx, u: Tx): Tx {
    match t.pc
    case LockForOpen => u.(pc := FindSitting)
    case FindSitting =>
      if t.req.Open? then
        var found := OpenSitting(db.sittings, t.req.key);
        if found.Some? then u.(outcome := Seated(found.value), pc := Commit) else u.(pc := CountPrior)
      else Fail(t)
    case CountPrior =>
      if t.req.Open? then u.(used := Prior(db.sittings, t.req.key), pc := InsertSitting) else Fail(t)
    case InsertSitting =>
      if t.req.Open? && OpenSitting(db.sittings, t.req.key).None?
      then u.(writes := u.writes.(seat := Some(
                Sitting(t.req.key, t.used, Draw(cfg, t.req.key, t.used, t.req.bank), true))), pc := SittingEvent)
      else Fail(t)
    case SittingEvent => u.(pc := Commit)
    case InsertGrant =>
      if t.req.GrantExtra? && t.req.extra >= 1 && !Blank(t.req.reason)
      then u.(writes := u.writes.(grant := Some(Grant(t.req.key, t.req.extra))), pc := Commit)
      else Fail(t)
    case _ => t
  }

  /** One step of one transaction, after any lock it needs was granted. An INSERT
      that meets a committed row on its unique key fails the request. */
  function Advance(cfg: Config, db: Db, t: Tx): Tx {
    var needs := Needs(cfg, db, t);
    var u := if needs.Some? then t.(held := t.held + {needs.value}) else t;
    if Submitting(t.pc) then StepSubmission(cfg, db, t, u)
    else if Completing(t.pc) then StepCompletion(cfg, db, t, u)
    else if Certifying(t.pc) then StepCertificate(cfg, db, t, u)
    else StepSitting(cfg, db, t, u)
  }

  /** The status of the completion row returned by the locking query. */
  function SeenLocked(cfg: Config, db: Db, t: Tx): Option<Status> {
    if CompletionLock(cfg, t) in t.held then SeenStatus(cfg, db, t) else None
  }

  function Publish(cfg: Config, db: Db, t: Tx): Db {
    var w := t.writes;
    var ck := CourseOf(cfg, t.req);
    var closed := if w.close.Some? && w.close.value < |db.sittings|
      then db.sittings[w.close.value := db.sittings[w.close.value].(open := false)] else db.sittings;
    Db(
      if w.sub.Some? then db.subs + [w.sub.value] else db.subs,
      if w.grant.Some? then db.grants + [w.grant.value] else db.grants,
      if w.seat.Some? then closed + [w.seat.value] else closed,
      if w.status.Some? then db.completions[ck := w.status.value]
      else if w.anchor then db.completions[ck := InProgress] else db.completions,
      if w.cert.Some? then db.certs + [w.cert.value] else db.certs)
  }

  function Finish(db: Db, t: Tx): Tx {
    var outcome := if t.writes.seat.Some? then Seated(|db.sittings|) else t.outcome;
    t.(pc := Done(outcome), held := {}, writes := NO_WRITES)
  }

  datatype Action = Go(i: nat) | Abort(i: nat)

  /** A transaction may also be rolled back at any moment (client gone, error). */
  ghost predicate CanAct(cfg: Config, s: State, a: Action) {
    match a
    case Go(i) => Enabled(cfg, s, i)
    case Abort(i) => i < |s.txs| && !Finished(s.txs[i])
  }

  ghost function Act(cfg: Config, s: State, a: Action): State
    requires CanAct(cfg, s, a)
  {
    var t := s.txs[a.i];
    match a
    case Abort(i) => State(s.db, s.txs[i := Fail(t)])
    case Go(i) =>
      if t.pc == Commit then State(Publish(cfg, s.db, t), s.txs[i := Finish(s.db, t)])
      else State(s.db, s.txs[i := Advance(cfg, s.db, t)])
  }

  /** A schedule runs to its end, or is not a schedule of this state. */
  ghost function Run(cfg: Config, s: State, schedule: seq<Action>): Option<State>
    decreases |schedule|
  {
    if schedule == [] then Some(s)
    else if CanAct(cfg, s, schedule[0]) then Run(cfg, Act(cfg, s, schedule[0]), schedule[1..])
    else None
  }

  ghost predicate Initial(cfg: Config, s: State) {
    forall i :: 0 <= i < |s.txs| ==> s.txs[i] == Start(cfg, s.txs[i].req)
  }
}
