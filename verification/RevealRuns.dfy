/** What showing the answer key means for later runs: exactly when a submission
    can still be recorded, and what a caller that leaves the grants out gives away. */
module RevealRuns {
  import opened Options
  import opened AttemptTables
  import opened AttemptPolicy
  import opened AssessmentProtocol
  import opened ProtocolSafety
  import opened ProtocolTheorems
  import opened ProtocolLiveness
  import opened SerialRuns

  ghost predicate RecordedBy(cfg: Config, db: Db, r: Request, schedule: seq<Action>) {
    && Run(cfg, Alone(cfg, db, r), schedule).Some?
    && |Run(cfg, Alone(cfg, db, r), schedule).value.txs| == 1
    && Run(cfg, Alone(cfg, db, r), schedule).value.txs[0].pc == Done(Recorded)
  }

  /** Some run of a submission that arrives now ends with it recorded. */
  ghost predicate StillRecords(cfg: Config, db: Db, key: Key, complete: bool, serial: nat) {
    exists schedule :: RecordedBy(cfg, db, Submit(key, complete, serial), schedule)
  }

  // ---- A lone submission with attempts left is recorded ----

  lemma UnspentRecords(cfg: Config, db: Db, key: Key, complete: bool, serial: nat)
    requires cfg.learnerMode == NoKeyUpdate && DbOk(cfg, db) && cfg.terms(key.activity).mcq
    requires !Spent(cfg, db, key)
    ensures StillRecords(cfg, db, key, complete, serial)
  {
    var r := Submit(key, complete, serial);
    var s := Alone(cfg, db, r);
    InitialInv(cfg, s);
    var schedule := CanFinish(cfg, s);
    AloneIsSerial(cfg, db, r, schedule);
    assert RecordedBy(cfg, db, r, schedule);
  }

  // ---- A spent one is not ----

  /** Only grant requests add grants. */
  lemma {:induction false} GrantsStay(cfg: Config, s: State, schedule: seq<Action>)
    requires Exclusive(cfg) && Inv(cfg, s) && Run(cfg, s, schedule).Some?
    requires forall i :: 0 <= i < |s.txs| ==> !s.txs[i].req.GrantExtra?
    ensures Run(cfg, s, schedule).value.db.grants == s.db.grants
    decreases |schedule|
  {
    if schedule != [] {
      var mid := Act(cfg, s, schedule[0]);
      ActGrows(cfg, s, schedule[0]);
      ActKeepsInv(cfg, s, schedule[0]);
      assert TxOk(cfg, s.db, s.txs[schedule[0].i]);
      assert forall i :: 0 <= i < |mid.txs| ==> mid.txs[i].req == s.txs[i].req;
      GrantsStay(cfg, mid, schedule[1..]);
    }
  }

  lemma SpentNeverRecords(cfg: Config, db: Db, key: Key, complete: bool, serial: nat)
    requires cfg.learnerMode == NoKeyUpdate && DbOk(cfg, db) && cfg.terms(key.activity).mcq
    requires Spent(cfg, db, key)
    ensures !StillRecords(cfg, db, key, complete, serial)
  {
    var s := Alone(cfg, db, Submit(key, complete, serial));
    InitialInv(cfg, s);
    forall schedule | Run(cfg, s, schedule).Some?
      ensures !RecordedBy(cfg, db, Submit(key, complete, serial), schedule)
    {
      GrantsStay(cfg, s, schedule);
      LateRefused(cfg, s, schedule, key, 0);
    }
  }

  /** A submission that arrives now can be recorded exactly when attempts are left. */
  lemma RecordsIff(cfg: Config, db: Db, key: Key, complete: bool, serial: nat)
    requires cfg.learnerMode == NoKeyUpdate && DbOk(cfg, db) && cfg.terms(key.activity).mcq
    ensures StillRecords(cfg, db, key, complete, serial) <==> !Spent(cfg, db, key)
  {
    if Spent(cfg, db, key) {
      SpentNeverRecords(cfg, db, key, complete, serial);
    } else {
      UnspentRecords(cfg, db, key, complete, serial);
    }
  }

  // ---- The callers ----

  /** A caller that reports `told` grants shows the key before a submission that is
      then recorded exactly in the cases Leaks names. */
  lemma LeakIsARun(cfg: Config, db: Db, key: Key, told: int, complete: bool, serial: nat)
    requires cfg.learnerMode == NoKeyUpdate && DbOk(cfg, db) && cfg.terms(key.activity).mcq
    requires cfg.terms(key.activity).maxAttempts.Some?
    ensures var limit := cfg.terms(key.activity).maxAttempts;
            Leaks(limit.value, Used(db.subs, key), Granted(db.grants, key), told) <==>
            && Reveal(Graded, limit, false, Used(db.subs, key), told)
            && StillRecords(cfg, db, key, complete, serial)
  {
    RecordsIff(cfg, db, key, complete, serial);
  }

  const KEY := Key(0, 0)
  const RETAKE := Db([Submission(KEY, 1)], [Grant(KEY, 1)], [], map[], [])

  function OneAttempt(): Config { Config(NoKeyUpdate, _ => Terms(0, Some(1), None, false, true), (_, _, _) => 0) }

  /** One attempt allowed and used, one granted: the submit page, which reports no
      grants, shows the key, and the granted attempt is still recorded. */
  lemma SubmitPageLeaks()
    ensures DbOk(OneAttempt(), RETAKE)
    ensures Reveal(Graded, Some(1), false, Used(RETAKE.subs, KEY), 0)
    ensures StillRecords(OneAttempt(), RETAKE, KEY, false, 0)
  {
    RetakeOk();
    RetakeCounts();
    RecordsIff(OneAttempt(), RETAKE, KEY, false, 0);
  }

  lemma RetakeCounts()
    ensures Used(RETAKE.subs, KEY) == 1 && Granted(RETAKE.grants, KEY) == 1
  {
    UsedAppend([], Submission(KEY, 1), KEY);
    GrantedAppend([], Grant(KEY, 1), KEY);
    assert [] + [Submission(KEY, 1)] == RETAKE.subs && [] + [Grant(KEY, 1)] == RETAKE.grants;
  }

  lemma RetakeOk()
    ensures DbOk(OneAttempt(), RETAKE)
  {
    RetakeCounts();
    forall key ensures AttemptsOk(OneAttempt(), RETAKE, key) {
      NumberedAppend([], Submission(KEY, 1), key);
      UsedAppend([], Submission(KEY, 1), key);
      assert [] + [Submission(KEY, 1)] == RETAKE.subs;
    }
  }
}
