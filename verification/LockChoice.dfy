/** The learner's lock mode is forced: each of the other three row locks has a
    run that deadlocks or a run that records more attempts than the limit. */
module LockChoice {
  import opened Options
  import opened AttemptTables
  import opened AssessmentProtocol
  import opened ProtocolSafety
  import opened ProtocolLiveness

  // ---- Schedules of two transactions ----

  ghost predicate Leads(cfg: Config, s: State, r: State) {
    exists schedule :: Run(cfg, s, schedule) == Some(r)
  }

  lemma {:induction false} RunLast(cfg: Config, s: State, schedule: seq<Action>, r: State, a: Action)
    requires Run(cfg, s, schedule) == Some(r) && CanAct(cfg, r, a)
    ensures Run(cfg, s, schedule + [a]) == Some(Act(cfg, r, a))
    decreases |schedule|
  {
    if schedule == [] {
      RunFirst(cfg, s, a, []);
      assert schedule + [a] == [a] + [];
    } else {
      RunLast(cfg, Act(cfg, s, schedule[0]), schedule[1..], r, a);
      assert schedule + [a] == [schedule[0]] + (schedule[1..] + [a]);
      RunFirst(cfg, s, schedule[0], schedule[1..] + [a]);
    }
  }

  lemma LeadsFurther(cfg: Config, s: State, r: State, a: Action)
    requires Leads(cfg, s, r) && CanAct(cfg, r, a)
    ensures Leads(cfg, s, Act(cfg, r, a))
  {
    var schedule :| Run(cfg, s, schedule) == Some(r);
    RunLast(cfg, s, schedule, r, a);
  }

  lemma LeadsSelf(cfg: Config, s: State)
    ensures Leads(cfg, s, s)
  {
    assert Run(cfg, s, []) == Some(s);
  }

  /** The other transaction's locks and inserts do not stand in the way of `t`. */
  ghost predicate Free(cfg: Config, db: Db, t: Tx, o: Tx) {
    && (Needs(cfg, db, t).Some? ==>
          forall l :: l in o.held && l.res == Needs(cfg, db, t).value.res ==>
                 !Conflicts(l.mode, Needs(cfg, db, t).value.mode))
    && !SameUniqueKey(cfg, t, o)
  }

  lemma First(cfg: Config, db: Db, a: Tx, b: Tx, s: State)
    requires !Finished(a) && a.pc != Commit && Free(cfg, db, a, b) && Leads(cfg, s, State(db, [a, b]))
    ensures Leads(cfg, s, State(db, [Advance(cfg, db, a), b]))
  {
    var r := State(db, [a, b]);
    assert r.txs[0] == a && r.txs[1] == b;
    assert Enabled(cfg, r, 0);
    LeadsFurther(cfg, s, r, Go(0));
    assert r.txs[0 := Advance(cfg, db, a)] == [Advance(cfg, db, a), b];
  }

  lemma Second(cfg: Config, db: Db, a: Tx, b: Tx, s: State)
    requires !Finished(b) && b.pc != Commit && Free(cfg, db, b, a) && Leads(cfg, s, State(db, [a, b]))
    ensures Leads(cfg, s, State(db, [a, Advance(cfg, db, b)]))
  {
    var r := State(db, [a, b]);
    assert r.txs[0] == a && r.txs[1] == b;
    assert Enabled(cfg, r, 1);
    LeadsFurther(cfg, s, r, Go(1));
    assert r.txs[1 := Advance(cfg, db, b)] == [a, Advance(cfg, db, b)];
  }

  /** COMMIT needs no lock and inserts nothing. */
  lemma FirstCommit(cfg: Config, db: Db, a: Tx, b: Tx, s: State)
    requires a.pc == Commit && Leads(cfg, s, State(db, [a, b]))
    ensures Leads(cfg, s, State(Publish(cfg, db, a), [Finish(db, a), b]))
  {
    var r := State(db, [a, b]);
    assert r.txs[0] == a && r.txs[1] == b;
    assert Enabled(cfg, r, 0);
    LeadsFurther(cfg, s, r, Go(0));
    assert r.txs[0 := Finish(db, a)] == [Finish(db, a), b];
  }

  lemma SecondCommit(cfg: Config, db: Db, a: Tx, b: Tx, s: State)
    requires b.pc == Commit && Leads(cfg, s, State(db, [a, b]))
    ensures Leads(cfg, s, State(Publish(cfg, db, b), [a, Finish(db, b)]))
  {
    var r := State(db, [a, b]);
    assert r.txs[0] == a && r.txs[1] == b;
    assert Enabled(cfg, r, 1);
    LeadsFurther(cfg, s, r, Go(1));
    assert r.txs[1 := Finish(db, b)] == [a, Finish(db, b)];
  }

  // ---- One learner, one activity ----

  const KEY := Key(0, 0)
  const COURSE := CourseKey(0, 0)

  function Sample(mode: LockMode, limit: Option<int>): Config {
    Config(mode, _ => Terms(0, limit, None, limit.Some?, true), (_, _, _) => 0)
  }

  function SubmitReq(): Request { Submit(KEY, true, 8) }

  /** The submission after `n` steps of submit_activity, if it counts no attempt
      and no grant and then takes the given number. */
  function Submitter(mode: LockMode, limit: Option<int>, number: int, n: nat): Tx {
    var start := Tx(SubmitReq(), LockForSubmit, {}, 0, 0, 0, NO_WRITES, Recorded);
    var locked := start.(held := {Lock(PersonRow(0), mode)});
    var inserted := locked.(number := number, writes := NO_WRITES.(sub := Some(Submission(KEY, number))));
    var logged := inserted.(held := {Lock(PersonRow(0), mode), Lock(PersonRow(0), KeyShare)});
    if n == 0 then start
    else if n == 1 then locked.(pc := CountUsed)
    else if n == 2 then locked.(pc := SumGrants)
    else if n == 3 then locked.(pc := Admit)
    else if n == 4 then locked.(pc := NumberAttempt)
    else if n == 5 then locked.(pc := InsertSubmission, number := number)
    else if n == 6 then inserted.(pc := LearnerEvent)
    else if n == 7 then logged.(pc := if limit.Some? then Commit else EnsureAnchor)
    else logged.(pc := LockAnchor)
  }

  /** The tables let the submission take its n-th step as foreseen. */
  predicate Foreseen(db: Db, number: int, n: nat) {
    && db.grants == [] && COURSE in db.completions
    && (n == 1 ==> db.subs == [])
    && (n == 4 ==> MaxNo(db.subs, KEY) + 1 == number)
    && (n == 5 ==> Submission(KEY, number) !in db.subs)
  }

  lemma SubmitterAdvances(mode: LockMode, limit: Option<int>, db: Db, number: int, n: nat)
    requires Foreseen(db, number, n) && (limit.Some? ==> limit.value >= 1)
    requires n < 7 || (n == 7 && limit.None?)
    ensures Advance(Sample(mode, limit), db, Submitter(mode, limit, number, n)) == Submitter(mode, limit, number, n + 1)
  {
    assert {} + {Lock(PersonRow(0), mode)} == {Lock(PersonRow(0), mode)};
  }

  lemma FirstStep(mode: LockMode, limit: Option<int>, db: Db, number: int, o: Tx, n: nat, s: State)
    requires Foreseen(db, number, n) && (limit.Some? ==> limit.value >= 1)
    requires n < 7 || (n == 7 && limit.None?)
    requires Free(Sample(mode, limit), db, Submitter(mode, limit, number, n), o)
    requires Leads(Sample(mode, limit), s, State(db, [Submitter(mode, limit, number, n), o]))
    ensures Leads(Sample(mode, limit), s, State(db, [Submitter(mode, limit, number, n + 1), o]))
  {
    SubmitterAdvances(mode, limit, db, number, n);
    First(Sample(mode, limit), db, Submitter(mode, limit, number, n), o, s);
  }

  lemma SecondStep(mode: LockMode, limit: Option<int>, db: Db, number: int, o: Tx, n: nat, s: State)
    requires Foreseen(db, number, n) && (limit.Some? ==> limit.value >= 1)
    requires n < 7 || (n == 7 && limit.None?)
    requires Free(Sample(mode, limit), db, Submitter(mode, limit, number, n), o)
    requires Leads(Sample(mode, limit), s, State(db, [o, Submitter(mode, limit, number, n)]))
    ensures Leads(Sample(mode, limit), s, State(db, [o, Submitter(mode, limit, number, n + 1)]))
  {
    SubmitterAdvances(mode, limit, db, number, n);
    Second(Sample(mode, limit), db, o, Submitter(mode, limit, number, n), s);
  }

  // ---- FOR UPDATE: a submission and a certificate request block each other ----

  /** The issuer after `n` steps of issue_certificate on a completed course. */
  function Issuer(n: nat): Tx {
    var req := Issue(COURSE, 7);
    var row := Lock(CompletionRow(COURSE), Update);
    var cert := Certificate(COURSE, 7);
    if n == 0 then Tx(req, ReadCertificate, {}, 0, 0, 0, NO_WRITES, Recorded)
    else if n == 1 then Tx(req, LockCompletion, {}, 0, 0, 0, NO_WRITES, Recorded)
    else if n == 2 then Tx(req, RecheckCertificate, {row}, 0, 0, 0, NO_WRITES, Recorded)
    else if n == 3 then Tx(req, InsertCertificate, {row}, 0, 0, 0, NO_WRITES, Recorded)
    else Tx(req, CertificateEvent, {row}, 0, 0, 0, NO_WRITES.(cert := Some(cert)), Certified(cert))
  }

  const DONE_COURSE := Db([], [], [], map[COURSE := Completed], [])

  lemma IssuerAdvances(cfg: Config, n: nat)
    requires n < 4
    ensures Advance(cfg, DONE_COURSE, Issuer(n)) == Issuer(n + 1)
  {
    assert {} + {Lock(CompletionRow(COURSE), Update)} == {Lock(CompletionRow(COURSE), Update)};
  }

  lemma IssuerStep(cfg: Config, s: State, a: Tx, n: nat)
    requires cfg == Sample(Update, None) && a == Submitter(Update, None, 1, 0) && n < 4
    requires Leads(cfg, s, State(DONE_COURSE, [a, Issuer(n)]))
    ensures Leads(cfg, s, State(DONE_COURSE, [a, Issuer(n + 1)]))
  {
    IssuerAdvances(cfg, n);
    Second(cfg, DONE_COURSE, a, Issuer(n), s);
  }

  lemma IssuerRuns(cfg: Config, s: State, a: Tx)
    requires cfg == Sample(Update, None) && a == Submitter(Update, None, 1, 0)
    requires s == State(DONE_COURSE, [a, Issuer(0)])
    ensures Leads(cfg, s, State(DONE_COURSE, [a, Issuer(4)]))
  {
    LeadsSelf(cfg, s);
    for n := 0 to 4
      invariant Leads(cfg, s, State(DONE_COURSE, [a, Issuer(n)]))
    {
      IssuerStep(cfg, s, a, n);
    }
  }

  lemma BesideIssuer(n: nat)
    requires n < 8
    ensures Free(Sample(Update, None), DONE_COURSE, Submitter(Update, None, 1, n), Issuer(4))
  {
  }

  lemma SubmitterBlocks(cfg: Config, s: State)
    requires cfg == Sample(Update, None)
    requires Leads(cfg, s, State(DONE_COURSE, [Submitter(Update, None, 1, 0), Issuer(4)]))
    ensures Leads(cfg, s, State(DONE_COURSE, [Submitter(Update, None, 1, 8), Issuer(4)]))
  {
    for n := 0 to 8
      invariant Leads(cfg, s, State(DONE_COURSE, [Submitter(Update, None, 1, n), Issuer(4)]))
    {
      BesideIssuer(n);
      FirstStep(Update, None, DONE_COURSE, 1, Issuer(4), n, s);
    }
  }

  lemma Embraced(cfg: Config, r: State)
    requires cfg == Sample(Update, None)
    requires r == State(DONE_COURSE, [Submitter(Update, None, 1, 8), Issuer(4)])
    ensures Stuck(cfg, r)
  {
    var a, b := r.txs[0], r.txs[1];
    assert Needs(cfg, r.db, a) == Some(Lock(CompletionRow(COURSE), Update));
    assert Needs(cfg, r.db, b) == Some(Lock(PersonRow(0), KeyShare));
    assert Lock(CompletionRow(COURSE), Update) in b.held;
    assert Lock(PersonRow(0), Update) in a.held;
    assert !Grantable(r.txs, 0, Needs(cfg, r.db, a).value);
    assert !Grantable(r.txs, 1, Needs(cfg, r.db, b).value);
    assert !Finished(a);
  }

  /** Under FOR UPDATE the submission waits for the completion row while its
      holder waits to reference the learner: neither can ever move. */
  lemma UpdateDeadlocks()
    ensures !NeverStuck(Sample(Update, None))
  {
    var cfg := Sample(Update, None);
    var s := State(DONE_COURSE, [Submitter(Update, None, 1, 0), Issuer(0)]);
    assert Initial(cfg, s) && DbOk(cfg, s.db);
    IssuerRuns(cfg, s, Submitter(Update, None, 1, 0));
    SubmitterBlocks(cfg, s);
    var r := State(DONE_COURSE, [Submitter(Update, None, 1, 8), Issuer(4)]);
    Embraced(cfg, r);
    var schedule :| Run(cfg, s, schedule) == Some(r);
  }

  // ---- FOR SHARE and FOR KEY SHARE: two submissions spend one attempt ----

  const ONE := Some(1)
  const NO_ROWS := Db([], [], [], map[COURSE := InProgress], [])
  const ONE_ROW := Db([Submission(KEY, 1)], [], [], map[COURSE := InProgress], [])

  ghost predicate Shared(mode: LockMode) { mode == Share || mode == KeyShare }

  /** A shared lock is no obstacle to another submission that has one. */
  lemma BesideShared(mode: LockMode, db: Db, number: int, n: nat, o: Tx, m: nat)
    requires Shared(mode) && n < 7 && m <= 7 && (n != 5 || m < 6)
    requires o == Submitter(mode, ONE, 3 - number, m)
    ensures Free(Sample(mode, ONE), db, Submitter(mode, ONE, number, n), o)
  {
  }

  lemma FirstAdvances(mode: LockMode, s: State)
    requires Shared(mode)
    requires s == State(NO_ROWS, [Submitter(mode, ONE, 1, 0), Submitter(mode, ONE, 2, 0)])
    ensures Leads(Sample(mode, ONE), s, State(NO_ROWS, [Submitter(mode, ONE, 1, 7), Submitter(mode, ONE, 2, 0)]))
  {
    LeadsSelf(Sample(mode, ONE), s);
    for n := 0 to 7
      invariant Leads(Sample(mode, ONE), s,
                      State(NO_ROWS, [Submitter(mode, ONE, 1, n), Submitter(mode, ONE, 2, 0)]))
    {
      BesideShared(mode, NO_ROWS, 1, n, Submitter(mode, ONE, 2, 0), 0);
      FirstStep(mode, ONE, NO_ROWS, 1, Submitter(mode, ONE, 2, 0), n, s);
    }
  }

  /** The first submission reaches COMMIT while the second has been admitted. */
  lemma BothAdmitted(mode: LockMode, s: State)
    requires Shared(mode)
    requires s == State(NO_ROWS, [Submitter(mode, ONE, 1, 0), Submitter(mode, ONE, 2, 0)])
    ensures Leads(Sample(mode, ONE), s, State(NO_ROWS, [Submitter(mode, ONE, 1, 7), Submitter(mode, ONE, 2, 4)]))
  {
    FirstAdvances(mode, s);
    for n := 0 to 4
      invariant Leads(Sample(mode, ONE), s,
                      State(NO_ROWS, [Submitter(mode, ONE, 1, 7), Submitter(mode, ONE, 2, n)]))
    {
      BesideShared(mode, NO_ROWS, 2, n, Submitter(mode, ONE, 1, 7), 7);
      SecondStep(mode, ONE, NO_ROWS, 2, Submitter(mode, ONE, 1, 7), n, s);
    }
  }

  /** Each submission publishes its row and nothing else. */
  lemma Publishes(mode: LockMode, db: Db, number: int)
    ensures Submitter(mode, ONE, number, 7).pc == Commit
    ensures Publish(Sample(mode, ONE), db, Submitter(mode, ONE, number, 7)) ==
            db.(subs := db.subs + [Submission(KEY, number)])
  {
  }

  lemma FirstCommits(mode: LockMode, s: State) returns (done: Tx)
    requires Shared(mode)
    requires Leads(Sample(mode, ONE), s, State(NO_ROWS, [Submitter(mode, ONE, 1, 7), Submitter(mode, ONE, 2, 4)]))
    ensures Finished(done) && done.held == {} && done.writes == NO_WRITES
    ensures Leads(Sample(mode, ONE), s, State(ONE_ROW, [done, Submitter(mode, ONE, 2, 4)]))
  {
    Publishes(mode, NO_ROWS, 1);
    FirstCommit(Sample(mode, ONE), NO_ROWS, Submitter(mode, ONE, 1, 7), Submitter(mode, ONE, 2, 4), s);
    done := Finish(NO_ROWS, Submitter(mode, ONE, 1, 7));
    assert NO_ROWS.(subs := NO_ROWS.subs + [Submission(KEY, 1)]) == ONE_ROW;
  }

  lemma BesideDone(mode: LockMode, number: int, n: nat, done: Tx)
    requires n < 7 && done.held == {} && done.writes == NO_WRITES
    ensures Free(Sample(mode, ONE), ONE_ROW, Submitter(mode, ONE, number, n), done)
  {
  }

  lemma OneIsMax()
    ensures MaxNo(ONE_ROW.subs, KEY) == 1
  {
    UsedAppend([], Submission(KEY, 1), KEY);
    assert [] + [Submission(KEY, 1)] == [Submission(KEY, 1)];
  }

  /** The admitted submission reads the committed number 1 and takes number 2. */
  lemma SecondInserts(mode: LockMode, s: State, done: Tx)
    requires Shared(mode) && done.held == {} && done.writes == NO_WRITES
    requires Leads(Sample(mode, ONE), s, State(ONE_ROW, [done, Submitter(mode, ONE, 2, 4)]))
    ensures Leads(Sample(mode, ONE), s, State(ONE_ROW, [done, Submitter(mode, ONE, 2, 7)]))
  {
    OneIsMax();
    for n := 4 to 7
      invariant Leads(Sample(mode, ONE), s, State(ONE_ROW, [done, Submitter(mode, ONE, 2, n)]))
    {
      BesideDone(mode, 2, n, done);
      SecondStep(mode, ONE, ONE_ROW, 2, done, n, s);
    }
  }

  lemma SecondCommits(mode: LockMode, s: State, done: Tx) returns (r: State)
    requires Shared(mode) && done.held == {} && done.writes == NO_WRITES
    requires Leads(Sample(mode, ONE), s, State(ONE_ROW, [done, Submitter(mode, ONE, 2, 4)]))
    ensures Leads(Sample(mode, ONE), s, r)
    ensures r.db.subs == [Submission(KEY, 1), Submission(KEY, 2)] && r.db.grants == []
  {
    var t := Submitter(mode, ONE, 2, 7);
    SecondInserts(mode, s, done);
    Publishes(mode, ONE_ROW, 2);
    SecondCommit(Sample(mode, ONE), ONE_ROW, done, t, s);
    r := State(Publish(Sample(mode, ONE), ONE_ROW, t), [done, Finish(ONE_ROW, t)]);
  }

  /** A shared lock lets two submissions count the same attempts: with one attempt
      allowed both are admitted and the table ends with attempts 1 and 2. */
  lemma SharedExceedsLimit(mode: LockMode)
    requires Shared(mode)
    ensures !AttemptsKept(Sample(mode, ONE))
  {
    var cfg := Sample(mode, ONE);
    var s := State(NO_ROWS, [Submitter(mode, ONE, 1, 0), Submitter(mode, ONE, 2, 0)]);
    BothAdmitted(mode, s);
    var done := FirstCommits(mode, s);
    var r := SecondCommits(mode, s, done);
    OverLimit(mode, r.db);
    StartsClean(mode, s);
    var schedule :| Run(cfg, s, schedule) == Some(r);
  }

  lemma StartsClean(mode: LockMode, s: State)
    requires s == State(NO_ROWS, [Submitter(mode, ONE, 1, 0), Submitter(mode, ONE, 2, 0)])
    ensures Initial(Sample(mode, ONE), s) && DbOk(Sample(mode, ONE), s.db)
  {
  }

  lemma OverLimit(mode: LockMode, db: Db)
    requires db.subs == [Submission(KEY, 1), Submission(KEY, 2)] && db.grants == []
    ensures !AttemptsOk(Sample(mode, ONE), db, KEY)
  {
    TwoUsed();
    assert !WithinLimit(Sample(mode, ONE), db, KEY);
  }

  lemma TwoUsed()
    ensures Used([Submission(KEY, 1), Submission(KEY, 2)], KEY) == 2
  {
    UsedAppend([Submission(KEY, 1)], Submission(KEY, 2), KEY);
    UsedAppend([], Submission(KEY, 1), KEY);
    assert [] + [Submission(KEY, 1)] == [Submission(KEY, 1)];
    assert [Submission(KEY, 1)] + [Submission(KEY, 2)] == [Submission(KEY, 1), Submission(KEY, 2)];
  }

  // ---- The choice ----

  /** Deadlock freedom, attempt numbering and the attempt limit hold for every activity policy,
      every table content, every list of requests and every schedule exactly
      when the learner's row is locked FOR NO KEY UPDATE. */
  lemma OnlyNoKeyUpdate(mode: LockMode)
    ensures (forall cfg: Config :: cfg.learnerMode == mode ==> NeverStuck(cfg) && AttemptsKept(cfg))
            <==> mode == NoKeyUpdate
  {
    if mode == NoKeyUpdate {
      forall cfg: Config | cfg.learnerMode == mode ensures NeverStuck(cfg) && AttemptsKept(cfg) {
        NoKeyUpdateWorks(cfg);
      }
    } else if mode == Update {
      UpdateDeadlocks();
      assert Sample(mode, None).learnerMode == mode;
    } else {
      SharedExceedsLimit(mode);
      assert Sample(mode, ONE).learnerMode == mode;
    }
  }

  lemma NoKeyUpdateWorks(cfg: Config)
    requires cfg.learnerMode == NoKeyUpdate
    ensures NeverStuck(cfg) && AttemptsKept(cfg)
  {
    forall s, schedule | Initial(cfg, s) && DbOk(cfg, s.db) && Run(cfg, s, schedule).Some?
      ensures !Stuck(cfg, Run(cfg, s, schedule).value)
      ensures DbOk(cfg, Run(cfg, s, schedule).value.db)
    {
      InitialInv(cfg, s);
      RunKeepsInv(cfg, s, schedule);
      var r := Run(cfg, s, schedule).value;
      if !AllFinished(r) {
        var i :| 0 <= i < |r.txs| && !Finished(r.txs[i]);
        var j := SomeoneMoves(cfg, r, i);
      }
    }
  }
}
