/** Every interleaving of the assessment writers is equivalent to running the
    committed requests one after the other, in the order of their commits. */
module Serializability {
  import opened Options
  import opened AttemptTables
  import opened AssessmentProtocol
  import opened ProtocolSafety
  import opened SerialSpec

  // ---- What a transaction has prepared ----

  predicate Closes(cfg: Config, r: Request) {
    r.Close? || (r.Submit? && cfg.terms(r.key.activity).pool.Some?)
  }

  predicate AtClose(pc: Pc) { pc.LockForClose? || pc.CloseSitting? }

  /** A request that closes a sitting has, from that step on, the learner's lock
      and the open sitting, if there is one. */
  ghost predicate ClosePrepared(cfg: Config, db: Db, t: Tx) {
    && (AtClose(t.pc) ==> Closes(cfg, t.req) && t.writes.close.None?)
    && (!Closes(cfg, t.req) ==> t.writes.close.None?)
    && (Closes(cfg, t.req) && !AtClose(t.pc) && !Finished(t) ==>
          HoldsLearner(cfg, t) && t.writes.close == OpenSitting(db.sittings, t.req.key))
  }

  predicate Recomputes(cfg: Config, r: Request) {
    r.Rescore? || (r.Submit? && !cfg.terms(r.key.activity).manual)
  }

  predicate NewlyComplete(cfg: Config, db: Db, r: Request)
    requires Recomputes(cfg, r)
  {
    r.complete && !IsCompleted(db, CourseOf(cfg, r))
  }

  ghost predicate StatusPrepared(cfg: Config, db: Db, t: Tx) {
    && (!Recomputes(cfg, t.req) ==> !t.writes.anchor && t.writes.status.None?)
    && (t.pc.EnsureAnchor? || t.pc.LockAnchor? || t.pc.Recompute? ==>
          Recomputes(cfg, t.req) && t.writes.status.None?)
    && (Certifying(t.pc) ==> Recomputes(cfg, t.req) || t.req.Issue?)
    && (Recomputes(cfg, t.req) && (Certifying(t.pc) || t.pc == Commit) ==>
          HoldsCompletion(cfg, t) && t.writes.status == Some(if t.req.complete then Completed else InProgress))
    && (Recomputes(cfg, t.req) && Certifying(t.pc) ==> NewlyComplete(cfg, db, t.req))
  }

  ghost predicate CertPrepared(cfg: Config, db: Db, t: Tx) {
    var ck := CourseOf(cfg, t.req);
    && (t.writes.cert.Some? ==>
          && (t.pc.CertificateEvent? || t.pc == Commit) && HoldsCompletion(cfg, t) && !HasCert(db.certs, ck)
          && (Recomputes(cfg, t.req) || t.req.Issue?) && t.writes.cert.value == Certificate(ck, t.req.serial)
          && (Recomputes(cfg, t.req) ==> NewlyComplete(cfg, db, t.req))
          && (t.req.Issue? ==> IsCompleted(db, ck) && t.outcome == Certified(t.writes.cert.value)))
    && (t.pc.CertificateEvent? ==> t.writes.cert.Some?)
    && (t.pc == Commit && t.writes.cert.None? && Recomputes(cfg, t.req) && NewlyComplete(cfg, db, t.req) ==>
          HasCert(db.certs, ck))
    && (t.pc == Commit && t.writes.cert.None? && t.req.Issue? ==>
          t.outcome.Certified? && t.outcome.cert.ck == ck && t.outcome.cert in db.certs)
  }

  ghost predicate RestPrepared(cfg: Config, db: Db, t: Tx) {
    && (!Finished(t) && !t.req.Open? && !t.req.Issue? ==> t.outcome == Recorded)
    && (t.req.GrantExtra? && t.pc == Commit ==>
          Allowed(cfg, db, t.req) && t.writes.grant == Some(Grant(t.req.key, t.req.extra)))
  }

  ghost predicate Prepared(cfg: Config, db: Db, t: Tx) {
    && ClosePrepared(cfg, db, t) && StatusPrepared(cfg, db, t) && CertPrepared(cfg, db, t) && RestPrepared(cfg, db, t)
  }

  ghost predicate AllPrepared(cfg: Config, s: State) {
    Inv(cfg, s) && forall i :: 0 <= i < |s.txs| ==> Prepared(cfg, s.db, s.txs[i])
  }

  // ---- Every step keeps it ----

  lemma CloseBegins(cfg: Config, db: Db, t: Tx)
    requires AtClose(t.pc) && ClosePrepared(cfg, db, t) && (t.pc == CloseSitting ==> HoldsLearner(cfg, t))
    ensures ClosePrepared(cfg, db, Advance(cfg, db, t))
  {
  }

  lemma CloseStays(cfg: Config, db: Db, t: Tx, u: Tx)
    requires ClosePrepared(cfg, db, t) && Keeps(cfg, db, t, u) && !AtClose(t.pc) && !AtClose(u.pc) && !Finished(t)
    ensures ClosePrepared(cfg, db, u)
  {
  }

  lemma NotBackToClose(cfg: Config, db: Db, t: Tx)
    requires !AtClose(t.pc)
    ensures !AtClose(Advance(cfg, db, t).pc)
  {
  }

  lemma CloseAdvances(cfg: Config, db: Db, t: Tx)
    requires TxOk(cfg, db, t) && ClosePrepared(cfg, db, t) && t.pc != Commit && !Finished(t)
    ensures ClosePrepared(cfg, db, Advance(cfg, db, t))
  {
    if AtClose(t.pc) {
      assert CloseOk(cfg, db, t);
      CloseBegins(cfg, db, t);
    } else {
      AdvanceKeeps(cfg, db, t);
      NotBackToClose(cfg, db, t);
      if Advance(cfg, db, t) != Fail(t) {
        CloseStays(cfg, db, t, Advance(cfg, db, t));
      }
    }
  }

  lemma CertsSeen(db: Db, ck: CourseKey)
    ensures HasCert(db.certs, ck) <==> FindCert(db.certs, ck).Some?
  {
    if FindCert(db.certs, ck).Some? {
      var i :| 0 <= i < |db.certs| && db.certs[i] == FindCert(db.certs, ck).value;
    }
  }

  lemma StatusCompletes(cfg: Config, db: Db, t: Tx)
    requires Completing(t.pc) && Fits(t) && StatusPrepared(cfg, db, t)
    requires t.writes.status.None? && (t.writes.anchor ==> CourseOf(cfg, t.req) !in db.completions)
    requires t.pc == Recompute ==> HoldsCompletion(cfg, t)
    ensures StatusPrepared(cfg, db, Advance(cfg, db, t))
  {
  }

  lemma StatusCertifies(cfg: Config, db: Db, t: Tx)
    requires Certifying(t.pc) && StatusPrepared(cfg, db, t)
    ensures StatusPrepared(cfg, db, Advance(cfg, db, t))
  {
    CertificateKeeps(cfg, db, t);
  }

  lemma StatusStays(cfg: Config, db: Db, t: Tx, u: Tx)
    requires Fits(t) && Fits(u) && StatusPrepared(cfg, db, t) && Keeps(cfg, db, t, u)
    requires Submitting(t.pc) || Opening(t.pc) || t.pc == InsertGrant
    requires Submitting(t.pc) ==> Submitting(u.pc) || u.pc.LearnerEvent? || t.req.Close?
    ensures StatusPrepared(cfg, db, u)
  {
  }

  lemma SubmissionFollows(cfg: Config, db: Db, t: Tx)
    requires Submitting(t.pc) && Advance(cfg, db, t) != Fail(t)
    ensures var pc := Advance(cfg, db, t).pc; Submitting(pc) || pc.LearnerEvent? || t.req.Close?
  {
  }

  lemma StatusAdvances(cfg: Config, db: Db, t: Tx)
    requires TxOk(cfg, db, t) && StatusPrepared(cfg, db, t) && t.pc != Commit && !Finished(t)
    ensures StatusPrepared(cfg, db, Advance(cfg, db, t))
  {
    assert LocksOk(cfg, db, t);
    if Completing(t.pc) {
      StatusCompletes(cfg, db, t);
    } else if Certifying(t.pc) {
      StatusCertifies(cfg, db, t);
    } else {
      AdvanceKeeps(cfg, db, t);
      AdvanceFits(cfg, db, t);
      if Advance(cfg, db, t) != Fail(t) {
        if Submitting(t.pc) {
          SubmissionFollows(cfg, db, t);
        }
        StatusStays(cfg, db, t, Advance(cfg, db, t));
      }
    }
  }

  /** Before its certificate steps a transaction has prepared no certificate. */
  lemma CertCompletes(cfg: Config, db: Db, t: Tx)
    requires Completing(t.pc) && Fits(t) && CertPrepared(cfg, db, t) && StatusPrepared(cfg, db, t)
    requires t.writes.anchor ==> CourseOf(cfg, t.req) !in db.completions
    ensures CertPrepared(cfg, db, Advance(cfg, db, t))
  {
  }

  lemma CertLooks(cfg: Config, db: Db, t: Tx)
    requires t.pc.ReadCertificate? || t.pc.LockCompletion?
    requires CertPrepared(cfg, db, t) && StatusPrepared(cfg, db, t)
    ensures CertPrepared(cfg, db, Advance(cfg, db, t))
  {
    CertsSeen(db, CourseOf(cfg, t.req));
  }

  lemma CertLooksAgain(cfg: Config, db: Db, t: Tx)
    requires t.pc.RecheckCertificate? && CertPrepared(cfg, db, t) && StatusPrepared(cfg, db, t)
    ensures CertPrepared(cfg, db, Advance(cfg, db, t))
  {
    CertsSeen(db, CourseOf(cfg, t.req));
  }

  lemma CertInserts(cfg: Config, db: Db, t: Tx)
    requires t.pc.InsertCertificate? || t.pc.CertificateEvent?
    requires CertPrepared(cfg, db, t) && StatusPrepared(cfg, db, t) && CertificateOk(cfg, db, t)
    ensures CertPrepared(cfg, db, Advance(cfg, db, t))
  {
    CertsSeen(db, CourseOf(cfg, t.req));
  }

  lemma CertStays(cfg: Config, db: Db, t: Tx, u: Tx)
    requires Fits(t) && CertPrepared(cfg, db, t) && Keeps(cfg, db, t, u) && t.pc != Commit
    requires !Completing(t.pc) && !Certifying(t.pc) && !Certifying(u.pc)
    requires u.pc == Commit ==> !Recomputes(cfg, t.req) && !t.req.Issue?
    ensures CertPrepared(cfg, db, u)
  {
  }

  lemma CommitFollows(cfg: Config, db: Db, t: Tx)
    requires Fits(t) && (Submitting(t.pc) || Opening(t.pc) || t.pc == InsertGrant)
    ensures var u := Advance(cfg, db, t);
            u != Fail(t) ==> !Certifying(u.pc) && (u.pc == Commit ==> t.req.Close? || t.req.Open? || t.req.GrantExtra?)
  {
  }

  lemma CertAdvances(cfg: Config, db: Db, t: Tx)
    requires TxOk(cfg, db, t) && StatusPrepared(cfg, db, t) && CertPrepared(cfg, db, t)
    requires t.pc != Commit && !Finished(t)
    ensures CertPrepared(cfg, db, Advance(cfg, db, t))
  {
    assert LocksOk(cfg, db, t) && CertificateOk(cfg, db, t);
    if Completing(t.pc) {
      CertCompletes(cfg, db, t);
    } else if t.pc.InsertCertificate? || t.pc.CertificateEvent? {
      CertInserts(cfg, db, t);
    } else if t.pc.RecheckCertificate? {
      CertLooksAgain(cfg, db, t);
    } else if Certifying(t.pc) {
      CertLooks(cfg, db, t);
    } else {
      AdvanceKeeps(cfg, db, t);
      CommitFollows(cfg, db, t);
      if Advance(cfg, db, t) != Fail(t) {
        CertStays(cfg, db, t, Advance(cfg, db, t));
      }
    }
  }

  lemma GrantInserts(cfg: Config, db: Db, t: Tx)
    requires t.pc == InsertGrant && Fits(t) && RestPrepared(cfg, db, t)
    ensures RestPrepared(cfg, db, Advance(cfg, db, t))
  {
  }

  lemma RestStays(cfg: Config, db: Db, t: Tx)
    requires Fits(t) && RestPrepared(cfg, db, t) && t.pc != Commit && t.pc != InsertGrant && !Finished(t)
    ensures RestPrepared(cfg, db, Advance(cfg, db, t))
  {
    AdvanceKeeps(cfg, db, t);
  }

  lemma RestAdvances(cfg: Config, db: Db, t: Tx)
    requires TxOk(cfg, db, t) && RestPrepared(cfg, db, t) && t.pc != Commit && !Finished(t)
    ensures RestPrepared(cfg, db, Advance(cfg, db, t))
  {
    assert Fits(t);
    if t.pc == InsertGrant {
      GrantInserts(cfg, db, t);
    } else {
      RestStays(cfg, db, t);
    }
  }

  lemma AdvancePrepared(cfg: Config, db: Db, t: Tx)
    requires TxOk(cfg, db, t) && Prepared(cfg, db, t) && t.pc != Commit && !Finished(t)
    ensures Prepared(cfg, db, Advance(cfg, db, t))
  {
    CloseAdvances(cfg, db, t);
    StatusAdvances(cfg, db, t);
    CertAdvances(cfg, db, t);
    RestAdvances(cfg, db, t);
  }

  // ---- Another transaction's COMMIT keeps it ----

  /** Tables in which nothing that `o` relies on has changed. */
  ghost predicate Undisturbed(cfg: Config, db: Db, after: Db, o: Tx) {
    && db.certs <= after.certs
    && (HoldsLearner(cfg, o) && Closes(cfg, o.req) ==>
          OpenSitting(after.sittings, o.req.key) == OpenSitting(db.sittings, o.req.key))
    && (HoldsCompletion(cfg, o) ==>
          var ck := CourseOf(cfg, o.req);
          && (IsCompleted(after, ck) <==> IsCompleted(db, ck))
          && (HasCert(after.certs, ck) <==> HasCert(db.certs, ck)))
  }

  lemma UndisturbedKeeps(cfg: Config, db: Db, after: Db, o: Tx)
    requires Undisturbed(cfg, db, after, o) && Prepared(cfg, db, o) && !Finished(o)
    ensures Prepared(cfg, after, o)
  {
  }

  lemma FinishedPrepared(cfg: Config, db: Db, after: Db, o: Tx)
    requires Finished(o) && Prepared(cfg, db, o) && o.writes == NO_WRITES
    ensures Prepared(cfg, after, o)
  {
  }

  lemma CommitUndisturbed(cfg: Config, db: Db, t: Tx, o: Tx)
    requires TxOk(cfg, db, t) && TxOk(cfg, db, o) && Apart(cfg, t, o) && Exclusive(cfg)
    ensures Undisturbed(cfg, db, Publish(cfg, db, t), o)
  {
    var after, ck := Publish(cfg, db, t), CourseOf(cfg, o.req);
    if HoldsLearner(cfg, o) && Closes(cfg, o.req) {
      CommitOtherSittings(cfg, db, t, o);
    }
    if HoldsCompletion(cfg, o) {
      assert HoldsCompletion(cfg, t) ==> CourseOf(cfg, t.req) != ck;
      PublishKeepsCourse(cfg, db, t, ck);
      CertsSeen(db, ck);
      CertsSeen(after, ck);
    }
  }

  lemma CommitPrepared(cfg: Config, db: Db, t: Tx, o: Tx)
    requires TxOk(cfg, db, t) && TxOk(cfg, db, o) && Apart(cfg, t, o) && Exclusive(cfg) && Prepared(cfg, db, o)
    ensures Prepared(cfg, Publish(cfg, db, t), o)
  {
    if Finished(o) {
      assert LocksOk(cfg, db, o);
      FinishedPrepared(cfg, db, Publish(cfg, db, t), o);
    } else {
      CommitUndisturbed(cfg, db, t, o);
      UndisturbedKeeps(cfg, db, Publish(cfg, db, t), o);
    }
  }

  lemma DonePrepared(cfg: Config, db: Db, u: Tx)
    requires Finished(u) && u.writes == NO_WRITES
    ensures Prepared(cfg, db, u)
  {
  }

  lemma ActKeepsPrepared(cfg: Config, s: State, a: Action)
    requires AllPrepared(cfg, s) && Exclusive(cfg) && CanAct(cfg, s, a)
    ensures AllPrepared(cfg, Act(cfg, s, a))
  {
    var r, t := Act(cfg, s, a), s.txs[a.i];
    ActKeepsInv(cfg, s, a);
    assert TxOk(cfg, s.db, t);
    forall j | 0 <= j < |r.txs| ensures Prepared(cfg, r.db, r.txs[j]) {
      if j == a.i {
        if a.Abort? || t.pc == Commit {
          DonePrepared(cfg, r.db, r.txs[j]);
        } else {
          AdvancePrepared(cfg, s.db, t);
        }
      } else if a.Go? && t.pc == Commit {
        assert TxOk(cfg, s.db, s.txs[j]) && Apart(cfg, t, s.txs[j]);
        CommitPrepared(cfg, s.db, t, s.txs[j]);
      }
    }
  }

  lemma InitialPrepared(cfg: Config, s: State)
    requires Initial(cfg, s) && DbOk(cfg, s.db)
    ensures AllPrepared(cfg, s)
  {
    InitialInv(cfg, s);
    forall i | 0 <= i < |s.txs| ensures Prepared(cfg, s.db, s.txs[i]) {
      assert s.txs[i] == Start(cfg, s.txs[i].req);
    }
  }

  lemma {:induction false} RunKeepsPrepared(cfg: Config, s: State, schedule: seq<Action>)
    requires AllPrepared(cfg, s) && Exclusive(cfg) && Run(cfg, s, schedule).Some?
    ensures AllPrepared(cfg, Run(cfg, s, schedule).value)
    decreases |schedule|
  {
    if schedule != [] {
      ActKeepsPrepared(cfg, s, schedule[0]);
      RunKeepsPrepared(cfg, Act(cfg, s, schedule[0]), schedule[1..]);
    }
  }

  // ---- A COMMIT is the atomic step ----

  lemma OnlyOpenCloses(rows: seq<Sitting>, key: Key)
    requires SittingsOk(rows)
    ensures var at := OpenSitting(rows, key);
            AllClosed(rows, key) == if at.Some? then rows[at.value := rows[at.value].(open := false)] else rows
  {
    var at := OpenSitting(rows, key);
    var r := if at.Some? then rows[at.value := rows[at.value].(open := false)] else rows;
    forall i | 0 <= i < |rows| ensures AllClosed(rows, key)[i] == r[i] {
      if rows[i].key == key && rows[i].open {
        assert at.Some? && at.value == i;
      }
    }
  }

  lemma SubmitRows(cfg: Config, db: Db, t: Tx)
    requires t.req.Submit? && SubmitOk(cfg, db, t) && t.pc == Commit && t.writes.grant.None?
    ensures Allowed(cfg, db, t.req)
    ensures Publish(cfg, db, t).subs == Effect(cfg, db, t.req).subs
    ensures Publish(cfg, db, t).grants == Effect(cfg, db, t.req).grants
  {
  }

  lemma CloseRows(cfg: Config, db: Db, t: Tx)
    requires SittingsOk(db.sittings) && ClosePrepared(cfg, db, t) && t.pc == Commit && t.writes.seat.None?
    requires t.req.Submit? || t.req.Close?
    ensures Publish(cfg, db, t).sittings == Effect(cfg, db, t.req).sittings
  {
    OnlyOpenCloses(db.sittings, t.req.key);
  }

  lemma RecomputeRows(cfg: Config, db: Db, t: Tx)
    requires LocksOk(cfg, db, t) && Prepared(cfg, db, t) && t.pc == Commit && !t.req.Issue?
    ensures var (after, effect) := (Publish(cfg, db, t), Effect(cfg, db, t.req));
            after.completions == effect.completions && after.certs == effect.certs
  {
  }

  lemma SubmitCommits(cfg: Config, db: Db, t: Tx)
    requires SittingsOk(db.sittings) && TxOk(cfg, db, t) && Prepared(cfg, db, t) && t.pc == Commit && t.req.Submit?
    ensures Allowed(cfg, db, t.req) && Publish(cfg, db, t) == Effect(cfg, db, t.req)
  {
    assert SubmitOk(cfg, db, t) && LocksOk(cfg, db, t);
    SubmitRows(cfg, db, t);
    CloseRows(cfg, db, t);
    RecomputeRows(cfg, db, t);
  }

  lemma RecomputeCommits(cfg: Config, db: Db, t: Tx)
    requires TxOk(cfg, db, t) && Prepared(cfg, db, t) && t.pc == Commit && (t.req.Rescore? || t.req.Issue?)
    ensures Allowed(cfg, db, t.req) && Publish(cfg, db, t) == Effect(cfg, db, t.req)
  {
    assert LocksOk(cfg, db, t) && CloseOk(cfg, db, t);
  }

  lemma SittingCommits(cfg: Config, db: Db, t: Tx)
    requires SittingsOk(db.sittings) && TxOk(cfg, db, t) && Prepared(cfg, db, t) && t.pc == Commit
    requires t.req.Open? || t.req.Close? || t.req.GrantExtra?
    ensures Allowed(cfg, db, t.req) && Publish(cfg, db, t) == Effect(cfg, db, t.req)
  {
    if t.req.Close? {
      OnlyOpenCloses(db.sittings, t.req.key);
    } else if t.req.Open? {
      assert SeatOk(cfg, db, t);
      if OpenSitting(db.sittings, t.req.key).Some? {
        assert IsOpen(db.sittings, t.req.key, OpenSitting(db.sittings, t.req.key).value);
      }
    }
    assert LocksOk(cfg, db, t) && CloseOk(cfg, db, t);
  }

  lemma CommitAnswers(cfg: Config, db: Db, t: Tx)
    requires TxOk(cfg, db, t) && Prepared(cfg, db, t) && t.pc == Commit
    ensures Finish(db, t).pc.Done? && Answers(Publish(cfg, db, t), t.req, Finish(db, t).pc.outcome)
  {
    if t.req.Open? {
      assert SeatOk(cfg, db, t);
    }
    assert t.writes.seat.Some? ==> t.req.Open?;
  }

  /** In every reachable state a COMMIT does exactly what its request does alone on
      the tables as they are at that moment, which allow it. */
  lemma CommitIsSerial(cfg: Config, s: State, i: nat)
    requires AllPrepared(cfg, s) && CanAct(cfg, s, Go(i)) && s.txs[i].pc == Commit
    ensures var r := Act(cfg, s, Go(i));
            && Allowed(cfg, s.db, s.txs[i].req) && r.db == Effect(cfg, s.db, s.txs[i].req)
            && r.txs[i].pc.Done? && Answers(r.db, s.txs[i].req, r.txs[i].pc.outcome)
  {
    var t := s.txs[i];
    assert TxOk(cfg, s.db, t) && Prepared(cfg, s.db, t);
    if t.req.Submit? {
      SubmitCommits(cfg, s.db, t);
    } else if t.req.Rescore? || t.req.Issue? {
      RecomputeCommits(cfg, s.db, t);
    } else {
      SittingCommits(cfg, s.db, t);
    }
    CommitAnswers(cfg, s.db, t);
  }

  // ---- Every run is serial ----

  ghost predicate Commits(cfg: Config, s: State, a: Action)
    requires CanAct(cfg, s, a)
  {
    a.Go? && s.txs[a.i].pc == Commit
  }

  /** The requests a run commits, in the order of their commits. */
  ghost function Committed(cfg: Config, s: State, schedule: seq<Action>): seq<Request>
    requires Run(cfg, s, schedule).Some?
    decreases |schedule|
  {
    if schedule == [] then []
    else
      (if Commits(cfg, s, schedule[0]) then [s.txs[schedule[0].i].req] else [])
      + Committed(cfg, Act(cfg, s, schedule[0]), schedule[1..])
  }

  lemma {:induction false} RunCommits(cfg: Config, s: State, schedule: seq<Action>)
    requires AllPrepared(cfg, s) && Exclusive(cfg) && Run(cfg, s, schedule).Some?
    ensures Run(cfg, s, schedule).value.db == SerialRun(cfg, s.db, Committed(cfg, s, schedule))
    decreases |schedule|
  {
    if schedule != [] {
      var mid := Act(cfg, s, schedule[0]);
      ActKeepsPrepared(cfg, s, schedule[0]);
      RunCommits(cfg, mid, schedule[1..]);
      var rest := Committed(cfg, mid, schedule[1..]);
      if Commits(cfg, s, schedule[0]) {
        var r := s.txs[schedule[0].i].req;
        CommitIsSerial(cfg, s, schedule[0].i);
        assert ([r] + rest)[0] == r && ([r] + rest)[1..] == rest;
      } else {
        assert [] + rest == rest;
      }
    }
  }

  /** Serializability: over consistent tables, whatever the requests and however
      their steps interleave, the tables end as if the committed requests had run
      one after the other in the order of their commits. */
  lemma RunIsSerial(cfg: Config, s: State, schedule: seq<Action>)
    requires Exclusive(cfg) && Initial(cfg, s) && DbOk(cfg, s.db) && Run(cfg, s, schedule).Some?
    ensures Run(cfg, s, schedule).value.db == SerialRun(cfg, s.db, Committed(cfg, s, schedule))
  {
    InitialPrepared(cfg, s);
    RunCommits(cfg, s, schedule);
  }
}
