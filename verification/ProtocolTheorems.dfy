/** The promises of the assessment services, over every run of the machine. */
module ProtocolTheorems {
  import opened Options
  import opened AttemptTables
  import opened AttemptPolicy
  import opened ExamEngine
  import opened AssessmentProtocol
  import opened ProtocolSafety

  // ---- Attempts ----

  /** In every interleaving, the learner's attempt numbers are exactly
      {1, ..., used}, and used stays within max_attempts plus grants. */
  lemma AttemptSafety(cfg: Config, s: State, schedule: seq<Action>, key: Key)
    requires Exclusive(cfg) && Initial(cfg, s) && DbOk(cfg, s.db)
    requires Run(cfg, s, schedule).Some? && cfg.terms(key.activity).mcq
    ensures var db := Run(cfg, s, schedule).value.db;
            && NosFor(db.subs, key) == UpTo(Used(db.subs, key))
            && (forall i, j :: 0 <= i < j < |db.subs| && db.subs[i].key == key == db.subs[j].key
                               ==> db.subs[i].no != db.subs[j].no)
            && WithinLimit(cfg, db, key)
  {
    InitialInv(cfg, s);
    RunKeepsInv(cfg, s, schedule);
    var db := Run(cfg, s, schedule).value.db;
    assert AttemptsOk(cfg, db, key);
    ExactlyOneToUsed(db.subs, key);
  }

  // ---- Growth: no committed row is lost ----

  ghost predicate Grew(a: Db, b: Db) {
    && a.subs <= b.subs && a.grants <= b.grants && a.certs <= b.certs
    && a.completions.Keys <= b.completions.Keys
    && |a.sittings| <= |b.sittings|
    && (forall i :: 0 <= i < |a.sittings| ==>
          b.sittings[i] == a.sittings[i] || b.sittings[i] == a.sittings[i].(open := false))
  }

  lemma PublishGrows(cfg: Config, db: Db, t: Tx)
    ensures Grew(db, Publish(cfg, db, t))
  {
  }

  lemma ActGrows(cfg: Config, s: State, a: Action)
    requires CanAct(cfg, s, a)
    ensures Grew(s.db, Act(cfg, s, a).db)
    ensures |Act(cfg, s, a).txs| == |s.txs|
    ensures forall i :: 0 <= i < |s.txs| ==> Act(cfg, s, a).txs[i].req == s.txs[i].req
    ensures forall i :: 0 <= i < |s.txs| && i != a.i ==> Act(cfg, s, a).txs[i] == s.txs[i]
  {
    PublishGrows(cfg, s.db, s.txs[a.i]);
    if s.txs[a.i].pc != Commit && !Finished(s.txs[a.i]) {
      AdvanceKeeps(cfg, s.db, s.txs[a.i]);
    }
  }

  lemma {:induction false} RunGrows(cfg: Config, s: State, schedule: seq<Action>)
    requires Run(cfg, s, schedule).Some?
    ensures Grew(s.db, Run(cfg, s, schedule).value.db)
    ensures |Run(cfg, s, schedule).value.txs| == |s.txs|
    ensures forall i :: 0 <= i < |s.txs| ==> Run(cfg, s, schedule).value.txs[i].req == s.txs[i].req
    decreases |schedule|
  {
    if schedule != [] {
      var mid := Act(cfg, s, schedule[0]);
      ActGrows(cfg, s, schedule[0]);
      RunGrows(cfg, mid, schedule[1..]);
    }
  }

  // ---- Certificates ----

  /** A step that adds a certificate is the COMMIT of a transaction that holds
      the completion row exclusively, and leaves that row completed. */
  lemma CertificateOnlyWhenCompleted(cfg: Config, s: State, a: Action)
    requires Inv(cfg, s) && CanAct(cfg, s, a) && Act(cfg, s, a).db.certs != s.db.certs
    ensures a.Go?
    ensures var ck := CourseOf(cfg, s.txs[a.i].req);
            var db := Act(cfg, s, a).db;
            && HoldsCompletion(cfg, s.txs[a.i])
            && (forall j, l :: 0 <= j < |s.txs| && j != a.i && l in s.txs[j].held ==> l.res != CompletionRow(ck))
            && ck in db.completions && db.completions[ck] == Completed
            && FindCert(s.db.certs, ck).None?
            && exists serial :: db.certs == s.db.certs + [Certificate(ck, serial)]
  {
    var t := s.txs[a.i];
    assert TxOk(cfg, s.db, t);
    var ck := CourseOf(cfg, t.req);
    forall j, l | 0 <= j < |s.txs| && j != a.i && l in s.txs[j].held ensures l.res != CompletionRow(ck) {
      assert Apart(cfg, t, s.txs[j]);
      assert !(CompletionLock(cfg, t).res == l.res);
    }
    assert t.writes.cert == Some(Certificate(ck, t.writes.cert.value.serial));
  }

  /** However issuers interleave: one certificate per learner and course, and
      every issuer that returns a certificate returns that one. */
  lemma OneCertificate(cfg: Config, s: State, schedule: seq<Action>)
    requires Exclusive(cfg) && Initial(cfg, s) && DbOk(cfg, s.db) && Run(cfg, s, schedule).Some?
    ensures var r := Run(cfg, s, schedule).value;
            && (forall i, j :: 0 <= i < j < |r.db.certs| ==> r.db.certs[i].ck != r.db.certs[j].ck)
            && forall i :: 0 <= i < |r.txs| && r.txs[i].pc.Done? && r.txs[i].pc.outcome.Certified? ==>
                 && r.txs[i].pc.outcome.cert.ck == CourseOf(cfg, r.txs[i].req)
                 && FindCert(r.db.certs, CourseOf(cfg, r.txs[i].req)) == Some(r.txs[i].pc.outcome.cert)
  {
    InitialInv(cfg, s);
    RunKeepsInv(cfg, s, schedule);
    var r := Run(cfg, s, schedule).value;
    forall i | 0 <= i < |r.txs| && r.txs[i].pc.Done? && r.txs[i].pc.outcome.Certified?
      ensures FindCert(r.db.certs, CourseOf(cfg, r.txs[i].req)) == Some(r.txs[i].pc.outcome.cert)
      ensures r.txs[i].pc.outcome.cert.ck == CourseOf(cfg, r.txs[i].req)
    {
      assert TxOk(cfg, r.db, r.txs[i]);
      var found := FindCert(r.db.certs, CourseOf(cfg, r.txs[i].req));
      var k :| 0 <= k < |r.db.certs| && r.db.certs[k] == r.txs[i].pc.outcome.cert;
      var m :| 0 <= m < |r.db.certs| && r.db.certs[m] == found.value;
    }
  }

  // ---- Sittings ----

  /** At most one open sitting per learner and activity, and the sittings of one
      learner on one activity were drawn as variants 0, 1, 2, ... in order. */
  lemma OneOpenSitting(cfg: Config, s: State, schedule: seq<Action>)
    requires Exclusive(cfg) && Initial(cfg, s) && DbOk(cfg, s.db) && Run(cfg, s, schedule).Some?
    ensures var rows := Run(cfg, s, schedule).value.db.sittings;
            && (forall i, j :: 0 <= i < j < |rows| && rows[i].key == rows[j].key ==> !rows[i].open || !rows[j].open)
            && (forall i :: 0 <= i < |rows| ==> rows[i].variant == |EarlierSittings(rows, i)|)
  {
    InitialInv(cfg, s);
    RunKeepsInv(cfg, s, schedule);
    var rows := Run(cfg, s, schedule).value.db.sittings;
    assert SittingsOk(rows);
    forall i | 0 <= i < |rows| ensures rows[i].variant == |EarlierSittings(rows, i)| {
      PriorCounts(rows[..i], rows[i].key);
      assert EarlierSittings(rows, i) == SittingsFor(rows[..i], rows[i].key);
    }
  }

  /** The earlier sittings of the same learner on the same activity. */
  function EarlierSittings(rows: seq<Sitting>, i: nat): set<nat>
    requires i < |rows|
  {
    set k: nat | k < i && rows[k].key == rows[i].key
  }

  function SittingsFor(rows: seq<Sitting>, key: Key): set<nat> {
    set k: nat | k < |rows| && rows[k].key == key
  }

  lemma {:induction false} PriorCounts(rows: seq<Sitting>, key: Key)
    ensures Prior(rows, key) == |SittingsFor(rows, key)|
  {
    if rows != [] {
      var n := |rows| - 1;
      PriorCounts(rows[..n], key);
      assert SittingsFor(rows, key) == SittingsFor(rows[..n], key) + if rows[n].key == key then {n} else {};
    }
  }

  /** When an open request finishes, the sitting it returns is the learner's
      one open sitting, and a new one was drawn from the bank it was given. */
  lemma OpenReturnsOpenSitting(cfg: Config, s: State, i: nat)
    requires Inv(cfg, s) && Enabled(cfg, s, i) && s.txs[i].req.Open?
    requires s.txs[i].pc == Commit
    ensures var key := s.txs[i].req.key;
            var r := Act(cfg, s, Go(i));
            && r.txs[i].pc.Done? && r.txs[i].pc.outcome.Seated?
            && var at := r.txs[i].pc.outcome.sitting;
            && at < |r.db.sittings|
            && r.db.sittings[at].key == key && r.db.sittings[at].open
            && (at < |s.db.sittings| ==> r.db.sittings == s.db.sittings)
            && (at >= |s.db.sittings| ==>
                  var variant := Prior(s.db.sittings, key);
                  r.db.sittings == s.db.sittings +
                    [Sitting(key, variant, Draw(cfg, key, variant, s.txs[i].req.bank), true)])
  {
    assert TxOk(cfg, s.db, s.txs[i]);
  }

  lemma FinishesInOpenSeat(cfg: Config, s: State, a: Action, i: nat, at: nat)
    requires Inv(cfg, s) && CanAct(cfg, s, a) && i < |s.txs| && s.txs[i].req.Open? && !Finished(s.txs[i])
    requires var r := Act(cfg, s, a);
             && r.txs[i].pc.Done? && r.txs[i].pc.outcome != Refused
             && at < |s.db.sittings| && at < |r.db.sittings|
             && s.db.sittings[at].key == s.txs[i].req.key && s.db.sittings[at].open
             && r.db.sittings[at].open && r.db.sittings[at].key == s.txs[i].req.key
    ensures Act(cfg, s, a).txs[i].pc.outcome == Seated(at)
  {
    assert TxOk(cfg, s.db, s.txs[i]);
    ActGrows(cfg, s, a);
    assert a.i == i;
    assert s.txs[i].pc == Commit;
    assert s.txs[i].writes.seat.None?;
    assert SittingsOk(s.db.sittings);
  }

  /** A sitting that is still open later has been open, with its questions, throughout. */
  lemma OpenThroughout(a: Db, b: Db, c: Db, at: nat)
    requires Grew(a, b) && Grew(b, c) && at < |a.sittings| && c.sittings[at].open
    ensures b.sittings[at].open && b.sittings[at] == a.sittings[at] && c.sittings[at] == a.sittings[at]
  {
  }

  /** Reopening: whatever runs in between (other learners, a reloaded bank, any
      number of aborted requests), while sitting `at` stays open every open
      request that finishes returns `at` with the questions stored first. */
  lemma {:induction false} ReopenReturnsSameQuestions(cfg: Config, s: State, schedule: seq<Action>, i: nat, at: nat)
    requires Exclusive(cfg) && Inv(cfg, s) && Run(cfg, s, schedule).Some?
    requires i < |s.txs| && s.txs[i].req.Open? && !Finished(s.txs[i])
    requires at < |s.db.sittings| && s.db.sittings[at].key == s.txs[i].req.key
    requires var r := Run(cfg, s, schedule).value;
             && |r.db.sittings| > at && r.db.sittings[at].open
             && i < |r.txs| && r.txs[i].pc.Done? && r.txs[i].pc.outcome != Refused
    ensures var r := Run(cfg, s, schedule).value;
            r.txs[i].pc.outcome == Seated(at) && r.db.sittings[at] == s.db.sittings[at]
    decreases |schedule|
  {
    var mid := Act(cfg, s, schedule[0]);
    ActGrows(cfg, s, schedule[0]);
    ActKeepsInv(cfg, s, schedule[0]);
    RunGrows(cfg, mid, schedule[1..]);
    OpenThroughout(s.db, mid.db, Run(cfg, mid, schedule[1..]).value.db, at);
    if Finished(mid.txs[i]) {
      FinishedStays(cfg, mid, schedule[1..], i);
      FinishesInOpenSeat(cfg, s, schedule[0], i, at);
    } else {
      ReopenReturnsSameQuestions(cfg, mid, schedule[1..], i, at);
    }
  }

  /** A pooled activity's paper has min(question_count, bank) questions (none
      for a count below one), all from the bank and none twice: those the learner's
      digest for the variant ranks lowest, in the order of the second digest. */
  lemma DrawIsPaper(cfg: Config, key: Key, variant: nat, bank: seq<string>)
    requires cfg.terms(key.activity).pool.Some?
    ensures var count := cfg.terms(key.activity).pool.value;
            var paper := Draw(cfg, key, variant, bank);
            && |paper| == (if count <= 0 then 0 else if count < |bank| then count else |bank|)
            && multiset(paper) <= multiset(bank)
            && (Distinct(bank) ==> Distinct(paper))
            && (forall q, p :: q in multiset(paper) && p in multiset(bank) - multiset(paper) ==>
                  cfg.digest(key.person, (variant, false), q) <= cfg.digest(key.person, (variant, false), p))
            && forall i, j :: 0 <= i < j < |paper| ==>
                 cfg.digest(key.person, (variant, true), paper[i]) <= cfg.digest(key.person, (variant, true), paper[j])
  {
    var count := cfg.terms(key.activity).pool.value;
    if count > 0 {
      SelectDraws(cfg.digest, key.person, variant, bank, count);
    }
  }

  lemma {:induction false} FinishedStays(cfg: Config, s: State, schedule: seq<Action>, i: nat)
    requires Run(cfg, s, schedule).Some? && i < |s.txs| && Finished(s.txs[i])
    ensures i < |Run(cfg, s, schedule).value.txs| && Run(cfg, s, schedule).value.txs[i] == s.txs[i]
    decreases |schedule|
  {
    if schedule != [] {
      FinishedStays(cfg, Act(cfg, s, schedule[0]), schedule[1..], i);
    }
  }

  // ---- Reveal ----

  ghost predicate Spent(cfg: Config, db: Db, key: Key) {
    Exhausted(cfg.terms(key.activity).maxAttempts, Used(db.subs, key), Granted(db.grants, key))
  }

  lemma {:induction false} GrantedPrefix(a: seq<Grant>, b: seq<Grant>, key: Key)
    requires a <= b
    ensures Granted(a, key) <= Granted(b, key)
    decreases |b|
  {
    if a != b {
      GrantedPrefix(a, b[..|b| - 1], key);
    } else {
      assert a == b;
    }
  }

  /** No submission passes while the learner's attempts are spent. */
  lemma SpentBlocks(cfg: Config, s: State, a: Action, key: Key)
    requires Inv(cfg, s) && CanAct(cfg, s, a)
    requires Spent(cfg, s.db, key)
    ensures Used(Act(cfg, s, a).db.subs, key) == Used(s.db.subs, key)
    ensures s.txs[a.i].req.Submit? && s.txs[a.i].req.key == key && Finished(Act(cfg, s, a).txs[a.i]) ==>
              Act(cfg, s, a).txs[a.i].pc == Done(Refused)
  {
    var t := s.txs[a.i];
    assert TxOk(cfg, s.db, t);
    if t.writes.sub.Some? {
      UsedAppend(s.db.subs, t.writes.sub.value, key);
    }
  }

  /** If the grants are the same at the end of a run, they are after its first step. */
  lemma GrantsFlat(cfg: Config, s: State, schedule: seq<Action>, key: Key)
    requires schedule != [] && Run(cfg, s, schedule).Some?
    requires Granted(Run(cfg, s, schedule).value.db.grants, key) == Granted(s.db.grants, key)
    ensures Granted(Act(cfg, s, schedule[0]).db.grants, key) == Granted(s.db.grants, key)
  {
    var mid := Act(cfg, s, schedule[0]);
    ActGrows(cfg, s, schedule[0]);
    RunGrows(cfg, mid, schedule[1..]);
    GrantedPrefix(s.db.grants, mid.db.grants, key);
    GrantedPrefix(mid.db.grants, Run(cfg, s, schedule).value.db.grants, key);
  }

  lemma StillSpent(cfg: Config, s: State, a: Action, key: Key)
    requires Inv(cfg, s) && CanAct(cfg, s, a) && Spent(cfg, s.db, key)
    requires Granted(Act(cfg, s, a).db.grants, key) == Granted(s.db.grants, key)
    ensures Spent(cfg, Act(cfg, s, a).db, key)
  {
    SpentBlocks(cfg, s, a, key);
  }

  lemma {:induction false} SpentStays(cfg: Config, s: State, schedule: seq<Action>, key: Key)
    requires Exclusive(cfg) && Inv(cfg, s) && Run(cfg, s, schedule).Some?
    requires Spent(cfg, s.db, key)
    requires Granted(Run(cfg, s, schedule).value.db.grants, key) == Granted(s.db.grants, key)
    ensures Used(Run(cfg, s, schedule).value.db.subs, key) == Used(s.db.subs, key)
    decreases |schedule|
  {
    if schedule != [] {
      GrantsFlat(cfg, s, schedule, key);
      StillSpent(cfg, s, schedule[0], key);
      SpentBlocks(cfg, s, schedule[0], key);
      ActKeepsInv(cfg, s, schedule[0]);
      SpentStays(cfg, Act(cfg, s, schedule[0]), schedule[1..], key);
    }
  }

  /** A submission of the spent key either goes on waiting or is refused. */
  lemma StepRefuses(cfg: Config, s: State, a: Action, key: Key, i: nat)
    requires Inv(cfg, s) && CanAct(cfg, s, a) && Spent(cfg, s.db, key)
    requires i < |s.txs| && !Finished(s.txs[i]) && s.txs[i].req.Submit? && s.txs[i].req.key == key
    ensures i < |Act(cfg, s, a).txs| && Act(cfg, s, a).txs[i].req == s.txs[i].req
    ensures Finished(Act(cfg, s, a).txs[i]) ==> Act(cfg, s, a).txs[i].pc == Done(Refused)
  {
    SpentBlocks(cfg, s, a, key);
    ActGrows(cfg, s, a);
  }

  lemma {:induction false} LateRefused(cfg: Config, s: State, schedule: seq<Action>, key: Key, i: nat)
    requires Exclusive(cfg) && Inv(cfg, s) && Run(cfg, s, schedule).Some?
    requires Spent(cfg, s.db, key)
    requires Granted(Run(cfg, s, schedule).value.db.grants, key) == Granted(s.db.grants, key)
    requires i < |s.txs| && !Finished(s.txs[i]) && s.txs[i].req.Submit? && s.txs[i].req.key == key
    ensures i < |Run(cfg, s, schedule).value.txs|
    ensures Finished(Run(cfg, s, schedule).value.txs[i]) ==> Run(cfg, s, schedule).value.txs[i].pc == Done(Refused)
    decreases |schedule|
  {
    if schedule != [] {
      var mid := Act(cfg, s, schedule[0]);
      StepRefuses(cfg, s, schedule[0], key, i);
      if Finished(mid.txs[i]) {
        FinishedStays(cfg, mid, schedule[1..], i);
      } else {
        GrantsFlat(cfg, s, schedule, key);
        StillSpent(cfg, s, schedule[0], key);
        ActKeepsInv(cfg, s, schedule[0]);
        LateRefused(cfg, mid, schedule[1..], key, i);
      }
    }
  }

  /** Once the answer key of a graded activity is shown to a learner who has not
      passed, by a caller that reported at least the grants recorded, every
      submission that finishes later is refused until a new grant is recorded. */
  lemma RevealIsSafe(cfg: Config, s: State, schedule: seq<Action>, key: Key, i: nat, told: int)
    requires Exclusive(cfg) && Inv(cfg, s) && Run(cfg, s, schedule).Some?
    requires Reveal(Graded, cfg.terms(key.activity).maxAttempts, false, Used(s.db.subs, key), told)
    requires told >= Granted(s.db.grants, key)
    requires Granted(Run(cfg, s, schedule).value.db.grants, key) == Granted(s.db.grants, key)
    requires i < |s.txs| && !Finished(s.txs[i]) && s.txs[i].req.Submit? && s.txs[i].req.key == key
    ensures var r := Run(cfg, s, schedule).value;
            && Used(r.db.subs, key) == Used(s.db.subs, key)
            && i < |r.txs| && (Finished(r.txs[i]) ==> r.txs[i].pc == Done(Refused))
  {
    SpentStays(cfg, s, schedule, key);
    LateRefused(cfg, s, schedule, key, i);
  }
}
