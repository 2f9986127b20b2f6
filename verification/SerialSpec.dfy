/** Each assessment request as one atomic step on the committed tables: what the
    services promise when nothing else runs. */
module SerialSpec {
  import opened AttemptTables
  import opened AssessmentProtocol

  /** Every sitting of the learner on the activity is submitted. */
  function AllClosed(rows: seq<Sitting>, key: Key): (r: seq<Sitting>)
    ensures |r| == |rows|
    ensures forall i :: 0 <= i < |rows| ==> r[i] == if rows[i].key == key then rows[i].(open := false) else rows[i]
  {
    seq(|rows|, i requires 0 <= i < |rows| => if rows[i].key == key then rows[i].(open := false) else rows[i])
  }

  predicate IsOpen(rows: seq<Sitting>, key: Key, at: nat) {
    at < |rows| && rows[at].key == key && rows[at].open
  }

  ghost predicate HasOpen(rows: seq<Sitting>, key: Key) { exists at: nat :: IsOpen(rows, key, at) }

  predicate HasCert(certs: seq<Certificate>, ck: CourseKey) {
    exists i :: 0 <= i < |certs| && certs[i].ck == ck
  }

  predicate IsCompleted(db: Db, ck: CourseKey) { ck in db.completions && db.completions[ck] == Completed }

  /** `recompute_completion`: the status is what the scores say now, and a course
      that becomes completed gets a certificate unless it has one. */
  function Recomputed(db: Db, ck: CourseKey, complete: bool, serial: nat): Db {
    db.(
      completions := db.completions[ck := if complete then Completed else InProgress],
      certs := if complete && !IsCompleted(db, ck) && !HasCert(db.certs, ck)
               then db.certs + [Certificate(ck, serial)] else db.certs)
  }

  predicate Admits(cfg: Config, db: Db, key: Key) {
    var terms := cfg.terms(key.activity);
    && terms.mcq
    && (terms.maxAttempts.Some? ==> Used(db.subs, key) < terms.maxAttempts.value + Granted(db.grants, key))
  }

  ghost predicate Allowed(cfg: Config, db: Db, r: Request) {
    match r
    case Submit(key, _, _) => Admits(cfg, db, key)
    case GrantExtra(_, extra, reason) => extra >= 1 && exists i :: 0 <= i < |reason| && !IsSpace(reason[i])
    case Issue(ck, _) => HasCert(db.certs, ck) || IsCompleted(db, ck)
    case _ => true
  }

  function Submitted(cfg: Config, db: Db, key: Key, complete: bool, serial: nat): Db {
    var terms := cfg.terms(key.activity);
    var next := db.(
      subs := db.subs + [Submission(key, Used(db.subs, key) + 1)],
      sittings := if terms.pool.Some? then AllClosed(db.sittings, key) else db.sittings);
    if terms.manual then next else Recomputed(next, CourseKey(key.person, terms.course), complete, serial)
  }

  /** A fresh paper: the next variant, drawn from the bank as it is now. */
  function Seat(cfg: Config, rows: seq<Sitting>, key: Key, bank: seq<string>): Sitting {
    Sitting(key, Prior(rows, key), Draw(cfg, key, Prior(rows, key), bank), true)
  }

  /** The tables after an allowed request. */
  ghost function Effect(cfg: Config, db: Db, r: Request): Db {
    match r
    case Submit(key, complete, serial) => Submitted(cfg, db, key, complete, serial)
    case Open(key, bank) =>
      if HasOpen(db.sittings, key) then db else db.(sittings := db.sittings + [Seat(cfg, db.sittings, key, bank)])
    case Close(key) => db.(sittings := AllClosed(db.sittings, key))
    case GrantExtra(key, extra, _) => db.(grants := db.grants + [Grant(key, extra)])
    case Rescore(ck, complete, serial) => Recomputed(db, ck, complete, serial)
    case Issue(ck, serial) =>
      if HasCert(db.certs, ck) then db else db.(certs := db.certs + [Certificate(ck, serial)])
  }

  /** What the request answers, read off the tables after it. */
  ghost predicate Answers(after: Db, r: Request, outcome: Outcome) {
    match r
    case Open(key, _) => outcome.Seated? && IsOpen(after.sittings, key, outcome.sitting)
    case Issue(ck, _) => outcome.Certified? && outcome.cert.ck == ck && outcome.cert in after.certs
    case _ => outcome == Recorded
  }

  /** The requests of a list, one after the other; a refused one changes nothing. */
  ghost function SerialRun(cfg: Config, db: Db, reqs: seq<Request>): Db
    decreases |reqs|
  {
    if reqs == [] then db
    else SerialRun(cfg, if Allowed(cfg, db, reqs[0]) then Effect(cfg, db, reqs[0]) else db, reqs[1..])
  }
}
