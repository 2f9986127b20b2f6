/** What every interleaving of the assessment writers keeps. */
module ProtocolSafety {
  import opened Options
  import opened AttemptTables
  import opened AttemptPolicy
  import opened AssessmentProtocol

  // ---- The committed tables ----

  ghost predicate WithinLimit(cfg: Config, db: Db, key: Key) {
    var limit := cfg.terms(key.activity).maxAttempts;
    limit.Some? && Used(db.subs, key) > 0 ==> Used(db.subs, key) <= limit.value + Granted(db.grants, key)
  }

  /** Attempt numbers are 1..used, and used is within the entitlement. */
  ghost predicate AttemptsOk(cfg: Config, db: Db, key: Key) {
    cfg.terms(key.activity).mcq ==> Numbered(db.subs, key) && WithinLimit(cfg, db, key)
  }

  /** At most one open sitting, and a learner's sittings on an activity were drawn
      as variants 0, 1, 2, ... in the order they were opened. */
  ghost predicate SittingsOk(rows: seq<Sitting>) {
    && (forall i, j :: 0 <= i < j < |rows| && rows[i].open && rows[j].open ==> rows[i].key != rows[j].key)
    && (forall i :: 0 <= i < |rows| ==> rows[i].variant == Prior(rows[..i], rows[i].key))
  }

  ghost predicate CertsOk(certs: seq<Certificate>) {
    forall i, j :: 0 <= i < j < |certs| ==> certs[i].ck != certs[j].ck
  }

  ghost predicate DbOk(cfg: Config, db: Db) {
    && (forall key :: AttemptsOk(cfg, db, key))
    && SittingsOk(db.sittings)
    && CertsOk(db.certs)
  }

  // ---- What a transaction knows at each step ----

  predicate HoldsLearner(cfg: Config, t: Tx) { LearnerLock(cfg, t) in t.held }
  predicate HoldsCompletion(cfg: Config, t: Tx) { CompletionLock(cfg, t) in t.held }

  /** The steps of attempts.open_or_create_attempt. */
  predicate Opening(pc: Pc) {
    pc.LockForOpen? || pc.FindSitting? || pc.CountPrior? || pc.InsertSitting? || pc.SittingEvent?
  }

  /** The steps that precede any lock on a completion row. */
  predicate BeforeAnchor(pc: Pc) { Submitting(pc) || pc.LearnerEvent? || Opening(pc) || pc.InsertGrant? }

  /** Each kind of request runs only its own steps. */
  predicate Fits(t: Tx) {
    && (t.pc.LockForClose? || t.pc.CloseSitting? ==> t.req.Submit? || t.req.Close?)
    && (Submitting(t.pc) || t.pc.LearnerEvent? ==> t.req.Submit? || t.pc.LockForClose? || t.pc.CloseSitting?)
    && (Completing(t.pc) ==> t.req.Submit? || t.req.Rescore?)
    && (Certifying(t.pc) ==> t.req.Submit? || t.req.Rescore? || t.req.Issue?)
    && (Opening(t.pc) ==> t.req.Open?)
    && (t.pc.InsertGrant? ==> t.req.GrantExtra?)
  }

  ghost predicate LocksOk(cfg: Config, db: Db, t: Tx) {
    && Fits(t)
    && t.held <= {LearnerLock(cfg, t), CompletionLock(cfg, t), ForeignKeyLock(t)}
    && (HoldsCompletion(cfg, t) ==> t.writes.anchor || CourseOf(cfg, t.req) in db.completions)
    && (t.writes.anchor ==> CourseOf(cfg, t.req) !in db.completions)
    && (t.pc == LockAnchor ==> t.writes.anchor || CourseOf(cfg, t.req) in db.completions)
    && (t.pc == Recompute ==> HoldsCompletion(cfg, t))
    && (BeforeAnchor(t.pc) ==> !t.writes.anchor && !HoldsCompletion(cfg, t))
    && (t.writes.status.Some? ==> HoldsCompletion(cfg, t))
    && (Finished(t) ==> t.held == {} && t.writes == NO_WRITES)
  }

  predicate HasAdmitted(pc: Pc) { pc.NumberAttempt? || pc.InsertSubmission? }
  predicate HasCounted(pc: Pc) { pc.SumGrants? || pc.Admit? || HasAdmitted(pc) }

  ghost predicate SubmitOk(cfg: Config, db: Db, t: Tx)
    requires t.req.Submit?
  {
    var key := t.req.key;
    var limit := cfg.terms(key.activity).maxAttempts;
    && (t.pc.CountUsed? || HasCounted(t.pc) || t.writes.sub.Some? ==>
          HoldsLearner(cfg, t) && cfg.terms(key.activity).mcq)
    && (HasCounted(t.pc) ==> t.used == Used(db.subs, key))
    && (t.pc.Admit? || HasAdmitted(t.pc) ==> t.granted <= Granted(db.grants, key))
    && (HasAdmitted(t.pc) ==> !Exhausted(limit, t.used, t.granted))
    && (t.pc == InsertSubmission ==> t.number == Used(db.subs, key) + 1)
    && (!Finished(t) && !Submitting(t.pc) ==> t.writes.sub.Some?)
    && (t.writes.sub.Some? ==>
          && t.writes.sub.value == Submission(key, Used(db.subs, key) + 1)
          && !Exhausted(limit, Used(db.subs, key), Granted(db.grants, key)))
  }

  ghost predicate CloseOk(cfg: Config, db: Db, t: Tx) {
    && (t.pc == CloseSitting || t.writes.close.Some? ==> HoldsLearner(cfg, t) && (t.req.Submit? || t.req.Close?))
    && (t.writes.close.Some? ==>
          && t.writes.close.value < |db.sittings|
          && db.sittings[t.writes.close.value].key == t.req.key
          && db.sittings[t.writes.close.value].open)
  }

  ghost predicate SeatOk(cfg: Config, db: Db, t: Tx)
    requires t.req.Open?
  {
    && (t.pc.FindSitting? || t.pc.CountPrior? || t.pc.InsertSitting? || t.writes.seat.Some? ==> HoldsLearner(cfg, t))
    && (t.outcome.Seated? && !Finished(t) ==> HoldsLearner(cfg, t))
    && (t.pc.CountPrior? || t.pc.InsertSitting? || t.writes.seat.Some? ==>
          OpenSitting(db.sittings, t.req.key).None?)
    && (t.pc == InsertSitting ==> t.used == Prior(db.sittings, t.req.key))
    && (t.writes.seat.Some? ==>
          var variant := Prior(db.sittings, t.req.key);
          t.writes.seat.value == Sitting(t.req.key, variant, Draw(cfg, t.req.key, variant, t.req.bank), true))
    && (t.outcome.Seated? && !Finished(t) ==>
          && t.pc == Commit
          && t.writes.seat.None?
          && t.outcome.sitting < |db.sittings|
          && db.sittings[t.outcome.sitting].key == t.req.key
          && db.sittings[t.outcome.sitting].open)
    && (t.pc == SittingEvent ==> t.writes.seat.Some?)
    && (t.pc == Commit ==> t.outcome.Seated? || t.writes.seat.Some?)
  }

  ghost predicate CertificateOk(cfg: Config, db: Db, t: Tx) {
    var ck := CourseOf(cfg, t.req);
    && (t.pc == InsertCertificate || t.writes.cert.Some? ==>
          && HoldsCompletion(cfg, t)
          && SeenStatus(cfg, db, t) == Some(Completed)
          && FindCert(db.certs, ck).None?)
    && (t.writes.cert.Some? ==> t.writes.cert.value.ck == ck && (t.pc == CertificateEvent || t.pc == Commit))
    && (t.outcome.Certified? ==>
          && t.req.Issue?
          && (t.pc == CertificateEvent || t.pc == Commit || Finished(t))
          && t.outcome.cert.ck == ck
          && (t.outcome.cert in db.certs || t.writes.cert == Some(t.outcome.cert)))
    && (t.pc.Done? && t.pc.outcome.Certified? ==> t.pc.outcome.cert.ck == ck && t.pc.outcome.cert in db.certs)
  }

  ghost predicate TxOk(cfg: Config, db: Db, t: Tx) {
    && LocksOk(cfg, db, t)
    && (t.writes.sub.Some? ==> t.req.Submit?)
    && (t.writes.grant.Some? ==> t.req.GrantExtra?)
    && (t.req.Submit? ==> SubmitOk(cfg, db, t))
    && CloseOk(cfg, db, t)
    && (t.writes.seat.Some? || t.outcome.Seated? ==> t.req.Open?)
    && (t.req.Open? ==> SeatOk(cfg, db, t))
    && CertificateOk(cfg, db, t)
  }

  /** Two transactions never hold conflicting locks or insert the same anchor. */
  ghost predicate Apart(cfg: Config, a: Tx, b: Tx) {
    && (forall l, m :: l in a.held && m in b.held && l.res == m.res ==> !Conflicts(l.mode, m.mode))
    && (a.writes.anchor && b.writes.anchor ==> CourseOf(cfg, a.req) != CourseOf(cfg, b.req))
  }

  ghost predicate Inv(cfg: Config, s: State) {
    && DbOk(cfg, s.db)
    && (forall i :: 0 <= i < |s.txs| ==> TxOk(cfg, s.db, s.txs[i]))
    && (forall i, j :: 0 <= i < |s.txs| && 0 <= j < |s.txs| && i != j ==> Apart(cfg, s.txs[i], s.txs[j]))
  }

  // ---- A step that does not commit ----

  /** Each write is made at one step only. */
  predicate KeepsWrites(t: Tx, u: Tx) {
    && (t.pc != InsertSubmission ==> u.writes.sub == t.writes.sub)
    && (t.pc != CloseSitting ==> u.writes.close == t.writes.close)
    && (t.pc != InsertSitting ==> u.writes.seat == t.writes.seat)
    && (t.pc != InsertGrant ==> u.writes.grant == t.writes.grant)
    && (t.pc != EnsureAnchor ==> u.writes.anchor == t.writes.anchor)
    && (t.pc != Recompute ==> u.writes.status == t.writes.status)
    && (t.pc != InsertCertificate ==> u.writes.cert == t.writes.cert)
    && (!Certifying(t.pc) && t.pc != FindSitting ==> u.outcome == t.outcome)
  }

  predicate KeepsOrder(a: Pc, b: Pc) {
    && (Submitting(b) ==> Submitting(a))
    && (Opening(b) ==> Opening(a))
    && (BeforeAnchor(b) ==> BeforeAnchor(a))
    && (b == CloseSitting ==> a == LockForClose)
    && (b == LockAnchor ==> a == EnsureAnchor)
    && (b == Recompute ==> a == LockAnchor)
    && (b == InsertCertificate ==> a == RecheckCertificate)
  }

  /** A step that does not fail takes at most the lock it needs, makes at most its
      own write, and follows the program. */
  ghost predicate Keeps(cfg: Config, db: Db, t: Tx, u: Tx) {
    && u.req == t.req && !Finished(u)
    && (u.held == t.held || (Needs(cfg, db, t).Some? && u.held == t.held + {Needs(cfg, db, t).value}))
    && KeepsWrites(t, u) && KeepsOrder(t.pc, u.pc)
  }

  ghost predicate KeepsOrFails(cfg: Config, db: Db, t: Tx, u: Tx) { u == Fail(t) || Keeps(cfg, db, t, u) }

  lemma SubmissionKeeps(cfg: Config, db: Db, t: Tx)
    requires Submitting(t.pc)
    ensures KeepsOrFails(cfg, db, t, Advance(cfg, db, t))
  {
  }

  lemma CompletionKeeps(cfg: Config, db: Db, t: Tx)
    requires Completing(t.pc)
    ensures KeepsOrFails(cfg, db, t, Advance(cfg, db, t))
  {
  }

  lemma LookupKeeps(cfg: Config, db: Db, t: Tx)
    requires t.pc.ReadCertificate? || t.pc.LockCompletion? || t.pc.RecheckCertificate?
    ensures KeepsOrFails(cfg, db, t, Advance(cfg, db, t))
  {
  }

  lemma CertificateKeeps(cfg: Config, db: Db, t: Tx)
    requires Certifying(t.pc)
    ensures KeepsOrFails(cfg, db, t, Advance(cfg, db, t))
  {
    if !t.pc.InsertCertificate? && !t.pc.CertificateEvent? {
      LookupKeeps(cfg, db, t);
    }
  }

  lemma SeatInsertKeeps(cfg: Config, db: Db, t: Tx)
    requires t.pc.InsertSitting? || t.pc.InsertGrant?
    ensures KeepsOrFails(cfg, db, t, Advance(cfg, db, t))
  {
  }

  lemma SittingKeeps(cfg: Config, db: Db, t: Tx)
    requires Opening(t.pc) || t.pc == InsertGrant
    ensures KeepsOrFails(cfg, db, t, Advance(cfg, db, t))
  {
    if t.pc.InsertSitting? || t.pc.InsertGrant? {
      SeatInsertKeeps(cfg, db, t);
    }
  }

  lemma AdvanceKeeps(cfg: Config, db: Db, t: Tx)
    requires t.pc != Commit && !Finished(t)
    ensures KeepsOrFails(cfg, db, t, Advance(cfg, db, t))
  {
    if Submitting(t.pc) {
      SubmissionKeeps(cfg, db, t);
    } else if Completing(t.pc) {
      CompletionKeeps(cfg, db, t);
    } else if Certifying(t.pc) {
      CertificateKeeps(cfg, db, t);
    } else {
      SittingKeeps(cfg, db, t);
    }
  }

  lemma AdvanceFits(cfg: Config, db: Db, t: Tx)
    requires Fits(t) && t.pc != Commit && !Finished(t)
    ensures Fits(Advance(cfg, db, t))
  {
    if Submitting(t.pc) || Completing(t.pc) {
      SubmissionFits(cfg, db, t);
    } else {
      OtherFits(cfg, db, t);
    }
  }

  lemma SubmissionFits(cfg: Config, db: Db, t: Tx)
    requires Fits(t) && (Submitting(t.pc) || Completing(t.pc))
    ensures Fits(Advance(cfg, db, t))
  {
  }

  lemma OtherFits(cfg: Config, db: Db, t: Tx)
    requires Fits(t) && (Certifying(t.pc) || Opening(t.pc) || t.pc == InsertGrant)
    ensures Fits(Advance(cfg, db, t))
  {
  }

  lemma NeedsWhat(cfg: Config, db: Db, t: Tx)
    ensures var needs := Needs(cfg, db, t);
            && (needs.Some? ==> needs.value in {LearnerLock(cfg, t), CompletionLock(cfg, t), ForeignKeyLock(t)})
            && (needs == Some(CompletionLock(cfg, t)) ==>
                  t.pc == LockAnchor
                  || (t.pc == LockCompletion && (CourseOf(cfg, t.req) in db.completions || t.writes.anchor)))
  {
  }

  lemma LocksKept(cfg: Config, db: Db, t: Tx, u: Tx)
    requires LocksOk(cfg, db, t) && Keeps(cfg, db, t, u) && Fits(u)
    requires t.pc == EnsureAnchor ==> u.writes.anchor == (CourseOf(cfg, t.req) !in db.completions)
    requires t.pc == LockAnchor ==> HoldsCompletion(cfg, u)
    ensures LocksOk(cfg, db, u)
  {
    NeedsWhat(cfg, db, t);
  }

  lemma AdvanceLocks(cfg: Config, db: Db, t: Tx)
    requires LocksOk(cfg, db, t) && t.pc != Commit && !Finished(t)
    ensures LocksOk(cfg, db, Advance(cfg, db, t))
  {
    AdvanceKeeps(cfg, db, t);
    AdvanceFits(cfg, db, t);
    if Advance(cfg, db, t) != Fail(t) {
      LocksKept(cfg, db, t, Advance(cfg, db, t));
    }
  }

  /** What a step owes of the submission and of the grant. */
  ghost predicate RowsOk(cfg: Config, db: Db, u: Tx) {
    && (u.writes.sub.Some? ==> u.req.Submit?) && (u.writes.grant.Some? ==> u.req.GrantExtra?)
    && (u.req.Submit? ==> SubmitOk(cfg, db, u))
  }

  lemma RowsKept(cfg: Config, db: Db, t: Tx, u: Tx)
    requires Fits(t) && RowsOk(cfg, db, t) && Keeps(cfg, db, t, u) && !Submitting(t.pc) && !Finished(t)
    ensures RowsOk(cfg, db, u)
  {
  }

  lemma SubmissionOpened(cfg: Config, db: Db, t: Tx)
    requires Fits(t) && RowsOk(cfg, db, t)
    requires t.pc.LockForClose? || t.pc.CloseSitting? || t.pc.LockForSubmit?
    ensures RowsOk(cfg, db, Advance(cfg, db, t))
  {
  }

  lemma SubmissionCounted(cfg: Config, db: Db, t: Tx)
    requires Fits(t) && RowsOk(cfg, db, t) && (t.pc.CountUsed? || t.pc.SumGrants? || t.pc.Admit?)
    ensures RowsOk(cfg, db, Advance(cfg, db, t))
  {
  }

  lemma SubmissionWritten(cfg: Config, db: Db, t: Tx)
    requires Fits(t) && RowsOk(cfg, db, t) && HasAdmitted(t.pc) && AttemptsOk(cfg, db, t.req.key)
    ensures RowsOk(cfg, db, Advance(cfg, db, t))
  {
  }

  lemma AdvanceRows(cfg: Config, db: Db, t: Tx)
    requires Fits(t) && RowsOk(cfg, db, t) && t.pc != Commit && !Finished(t)
    requires forall key :: AttemptsOk(cfg, db, key)
    ensures RowsOk(cfg, db, Advance(cfg, db, t))
  {
    if HasAdmitted(t.pc) {
      SubmissionWritten(cfg, db, t);
    } else if t.pc.CountUsed? || HasCounted(t.pc) {
      SubmissionCounted(cfg, db, t);
    } else if Submitting(t.pc) {
      SubmissionOpened(cfg, db, t);
    } else {
      AdvanceKeeps(cfg, db, t);
      if Advance(cfg, db, t) != Fail(t) {
        RowsKept(cfg, db, t, Advance(cfg, db, t));
      }
    }
  }

  lemma CloseKept(cfg: Config, db: Db, t: Tx, u: Tx)
    requires CloseOk(cfg, db, t) && Keeps(cfg, db, t, u) && t.pc != LockForClose && t.pc != CloseSitting
    ensures CloseOk(cfg, db, u)
  {
  }

  lemma AdvanceClose(cfg: Config, db: Db, t: Tx)
    requires Fits(t) && CloseOk(cfg, db, t) && t.pc != Commit && !Finished(t)
    ensures CloseOk(cfg, db, Advance(cfg, db, t))
  {
    AdvanceKeeps(cfg, db, t);
    if t.pc != LockForClose && t.pc != CloseSitting && Advance(cfg, db, t) != Fail(t) {
      CloseKept(cfg, db, t, Advance(cfg, db, t));
    }
  }

  ghost predicate SeatsOk(cfg: Config, db: Db, u: Tx) {
    (u.writes.seat.Some? || u.outcome.Seated? ==> u.req.Open?) && (u.req.Open? ==> SeatOk(cfg, db, u))
  }

  lemma SeatKept(cfg: Config, db: Db, t: Tx, u: Tx)
    requires Fits(t) && SeatsOk(cfg, db, t) && Keeps(cfg, db, t, u) && !Opening(t.pc)
    requires Certifying(t.pc) ==> !u.outcome.Seated?
    requires t.pc != Commit && !Finished(t)
    ensures SeatsOk(cfg, db, u)
  {
  }

  lemma SeatWritten(cfg: Config, db: Db, t: Tx)
    requires Fits(t) && SeatsOk(cfg, db, t) && Opening(t.pc)
    ensures SeatsOk(cfg, db, Advance(cfg, db, t))
  {
  }

  lemma NotSeated(cfg: Config, db: Db, t: Tx)
    requires Certifying(t.pc) && !t.outcome.Seated?
    ensures !Advance(cfg, db, t).outcome.Seated?
  {
  }

  lemma AdvanceSeat(cfg: Config, db: Db, t: Tx)
    requires Fits(t) && SeatsOk(cfg, db, t) && t.pc != Commit && !Finished(t)
    ensures SeatsOk(cfg, db, Advance(cfg, db, t))
  {
    if Opening(t.pc) {
      SeatWritten(cfg, db, t);
    } else {
      AdvanceKeeps(cfg, db, t);
      if Certifying(t.pc) {
        NotSeated(cfg, db, t);
      }
      if Advance(cfg, db, t) != Fail(t) {
        SeatKept(cfg, db, t, Advance(cfg, db, t));
      }
    }
  }

  lemma CertificateKept(cfg: Config, db: Db, t: Tx, u: Tx)
    requires CertificateOk(cfg, db, t) && Keeps(cfg, db, t, u) && !Certifying(t.pc)
    requires t.pc != Commit && !Finished(t)
    requires u.outcome.Certified? ==> t.outcome.Certified?
    ensures CertificateOk(cfg, db, u)
  {
  }

  lemma CertificateFound(cfg: Config, db: Db, t: Tx)
    requires CertificateOk(cfg, db, t) && (t.pc.ReadCertificate? || t.pc.LockCompletion?)
    ensures CertificateOk(cfg, db, Advance(cfg, db, t))
  {
  }

  lemma CertificateRechecked(cfg: Config, db: Db, t: Tx)
    requires CertificateOk(cfg, db, t) && t.pc.RecheckCertificate?
    ensures CertificateOk(cfg, db, Advance(cfg, db, t))
  {
  }

  lemma CertificateWritten(cfg: Config, db: Db, t: Tx)
    requires CertificateOk(cfg, db, t) && (t.pc.InsertCertificate? || t.pc.CertificateEvent?)
    ensures CertificateOk(cfg, db, Advance(cfg, db, t))
  {
  }

  lemma AdvanceCertificate(cfg: Config, db: Db, t: Tx)
    requires Fits(t) && CertificateOk(cfg, db, t) && t.pc != Commit && !Finished(t)
    ensures CertificateOk(cfg, db, Advance(cfg, db, t))
  {
    if t.pc.ReadCertificate? || t.pc.LockCompletion? {
      CertificateFound(cfg, db, t);
    } else if t.pc.RecheckCertificate? {
      CertificateRechecked(cfg, db, t);
    } else if Certifying(t.pc) {
      CertificateWritten(cfg, db, t);
    } else {
      AdvanceKeeps(cfg, db, t);
      if Advance(cfg, db, t) != Fail(t) {
        CertificateKept(cfg, db, t, Advance(cfg, db, t));
      }
    }
  }

  lemma AdvanceOk(cfg: Config, db: Db, t: Tx)
    requires TxOk(cfg, db, t) && t.pc != Commit && !Finished(t)
    requires forall key :: AttemptsOk(cfg, db, key)
    ensures TxOk(cfg, db, Advance(cfg, db, t))
  {
    AdvanceLocks(cfg, db, t);
    AdvanceRows(cfg, db, t);
    AdvanceClose(cfg, db, t);
    AdvanceSeat(cfg, db, t);
    AdvanceCertificate(cfg, db, t);
  }

  lemma LocksApart(held: set<Lock>, needs: Option<Lock>, after: set<Lock>, others: set<Lock>)
    requires forall l, m :: l in held && m in others && l.res == m.res ==> !Conflicts(l.mode, m.mode)
    requires forall m :: needs.Some? && m in others && m.res == needs.value.res ==>
             !Conflicts(m.mode, needs.value.mode)
    requires after <= held + if needs.Some? then {needs.value} else {}
    ensures forall l, m :: l in after && m in others && l.res == m.res ==>
            !Conflicts(l.mode, m.mode) && !Conflicts(m.mode, l.mode)
  {
  }

  /** A step whose lock was granted and whose INSERT did not wait. */
  lemma KeptApart(cfg: Config, db: Db, t: Tx, u: Tx, o: Tx)
    requires Apart(cfg, t, o) && Keeps(cfg, db, t, u)
    requires forall l :: Needs(cfg, db, t).Some? && l in o.held && l.res == Needs(cfg, db, t).value.res ==>
             !Conflicts(l.mode, Needs(cfg, db, t).value.mode)
    requires !SameUniqueKey(cfg, t, o)
    ensures Apart(cfg, u, o) && Apart(cfg, o, u)
  {
    LocksApart(t.held, Needs(cfg, db, t), u.held, o.held);
  }

  lemma AdvanceApart(cfg: Config, s: State, i: nat, j: nat)
    requires Inv(cfg, s) && Enabled(cfg, s, i) && s.txs[i].pc != Commit && j < |s.txs| && j != i
    ensures Apart(cfg, Advance(cfg, s.db, s.txs[i]), s.txs[j])
    ensures Apart(cfg, s.txs[j], Advance(cfg, s.db, s.txs[i]))
  {
    var t, o := s.txs[i], s.txs[j];
    assert Apart(cfg, t, o) && !SameUniqueKey(cfg, t, o);
    AdvanceKeeps(cfg, s.db, t);
    if Advance(cfg, s.db, t) != Fail(t) {
      KeptApart(cfg, s.db, t, Advance(cfg, s.db, t), o);
    }
  }

  // ---- COMMIT ----

  /** No two holders of the same learner's lock: the mode excludes itself. */
  ghost predicate Exclusive(cfg: Config) { Conflicts(cfg.learnerMode, cfg.learnerMode) }

  lemma SubmissionKeepsAttempts(cfg: Config, db: Db, after: Db, x: Submission, key: Key)
    requires AttemptsOk(cfg, db, key) && after.subs == db.subs + [x] && after.grants == db.grants
    requires x.key == key && cfg.terms(key.activity).mcq ==>
               x.no == Used(db.subs, key) + 1
               && !Exhausted(cfg.terms(key.activity).maxAttempts, Used(db.subs, key), Granted(db.grants, key))
    ensures AttemptsOk(cfg, after, key)
  {
    if cfg.terms(key.activity).mcq {
      UsedAppend(db.subs, x, key);
      NumberedAppend(db.subs, x, key);
    }
  }

  lemma GrantKeepsAttempts(cfg: Config, db: Db, after: Db, x: Grant, key: Key)
    requires AttemptsOk(cfg, db, key) && after.subs == db.subs && after.grants == db.grants + [x]
    ensures AttemptsOk(cfg, after, key)
  {
    GrantedAppend(db.grants, x, key);
  }

  lemma CommitAttempts(cfg: Config, db: Db, t: Tx, key: Key)
    requires TxOk(cfg, db, t) && AttemptsOk(cfg, db, key)
    ensures AttemptsOk(cfg, Publish(cfg, db, t), key)
  {
    if t.writes.sub.Some? {
      SubmissionKeepsAttempts(cfg, db, Publish(cfg, db, t), t.writes.sub.value, key);
    } else if t.writes.grant.Some? {
      GrantKeepsAttempts(cfg, db, Publish(cfg, db, t), t.writes.grant.value, key);
    }
  }

  lemma CloseKeepsSittings(rows: seq<Sitting>, at: nat)
    requires SittingsOk(rows) && at < |rows|
    ensures SittingsOk(rows[at := rows[at].(open := false)])
  {
    var closed := rows[at := rows[at].(open := false)];
    forall i | 0 <= i < |closed| ensures closed[i].variant == Prior(closed[..i], closed[i].key) {
      if at < i {
        assert closed[..i] == rows[..i][at := closed[at]];
        PriorUpdate(rows[..i], at, closed[at], closed[i].key);
      } else {
        assert closed[..i] == rows[..i];
      }
    }
  }

  lemma SeatKeepsSittings(rows: seq<Sitting>, x: Sitting)
    requires SittingsOk(rows) && OpenSitting(rows, x.key).None? && x.variant == Prior(rows, x.key)
    ensures SittingsOk(rows + [x])
  {
    var all := rows + [x];
    forall i | 0 <= i < |all| ensures all[i].variant == Prior(all[..i], all[i].key) {
      assert all[..i] == if i < |rows| then rows[..i] else rows;
      assert i < |rows| ==> all[i] == rows[i];
    }
    forall i, j | 0 <= i < j < |all| && all[i].open && all[j].open ensures all[i].key != all[j].key {
      assert all[i] == rows[i];
      if j < |rows| {
        assert all[j] == rows[j];
      }
    }
  }

  lemma CommitDb(cfg: Config, db: Db, t: Tx)
    requires DbOk(cfg, db) && TxOk(cfg, db, t)
    ensures DbOk(cfg, Publish(cfg, db, t))
  {
    forall key ensures AttemptsOk(cfg, Publish(cfg, db, t), key) {
      CommitAttempts(cfg, db, t, key);
    }
    if t.writes.close.Some? {
      CloseKeepsSittings(db.sittings, t.writes.close.value);
    } else if t.writes.seat.Some? {
      SeatKeepsSittings(db.sittings, t.writes.seat.value);
    }
  }

  lemma CommitOtherCounts(cfg: Config, db: Db, t: Tx, o: Tx)
    requires TxOk(cfg, db, t) && Apart(cfg, t, o) && Exclusive(cfg) && o.req.Submit?
    ensures Granted(Publish(cfg, db, t).grants, o.req.key) >= Granted(db.grants, o.req.key)
    ensures HoldsLearner(cfg, o) ==> Used(Publish(cfg, db, t).subs, o.req.key) == Used(db.subs, o.req.key)
  {
    var key := o.req.key;
    if t.writes.grant.Some? {
      GrantedAppend(db.grants, t.writes.grant.value, key);
    }
    if t.writes.sub.Some? {
      UsedAppend(db.subs, t.writes.sub.value, key);
      assert HoldsLearner(cfg, o) ==> PersonOf(t.req) != key.person;
    }
  }

  lemma CommitOtherSubmit(cfg: Config, db: Db, t: Tx, o: Tx)
    requires TxOk(cfg, db, t) && TxOk(cfg, db, o) && Apart(cfg, t, o) && Exclusive(cfg)
    requires o.req.Submit?
    ensures SubmitOk(cfg, Publish(cfg, db, t), o)
  {
    CommitOtherCounts(cfg, db, t, o);
    SubmitOkFrame(cfg, db, Publish(cfg, db, t), o);
  }

  /** What a submission relies on: its own count and the grants so far. */
  lemma SubmitOkFrame(cfg: Config, db: Db, after: Db, o: Tx)
    requires o.req.Submit? && SubmitOk(cfg, db, o)
    requires Granted(after.grants, o.req.key) >= Granted(db.grants, o.req.key)
    requires HoldsLearner(cfg, o) ==> Used(after.subs, o.req.key) == Used(db.subs, o.req.key)
    ensures SubmitOk(cfg, after, o)
  {
  }

  lemma OpenSittingFrame(rows: seq<Sitting>, x: Sitting, key: Key)
    requires x.key != key
    ensures OpenSitting(rows + [x], key) == OpenSitting(rows, key)
  {
    assert (rows + [x])[..|rows|] == rows;
  }

  lemma {:induction false} OpenSittingUpdate(rows: seq<Sitting>, at: nat, x: Sitting, key: Key)
    requires at < |rows| && rows[at].key == x.key && x.key != key
    ensures OpenSitting(rows[at := x], key) == OpenSitting(rows, key)
  {
    var last := |rows| - 1;
    if at == last {
      assert rows[at := x][..last] == rows[..last];
    } else {
      assert rows[at := x][..last] == rows[..last][at := x];
      OpenSittingUpdate(rows[..last], at, x, key);
    }
  }

  ghost predicate SameSittings(rows: seq<Sitting>, after: seq<Sitting>, key: Key) {
    && |after| >= |rows|
    && (forall i :: 0 <= i < |rows| && rows[i].key == key ==> after[i] == rows[i])
    && OpenSitting(after, key) == OpenSitting(rows, key)
    && Prior(after, key) == Prior(rows, key)
  }

  lemma ClosedElsewhere(rows: seq<Sitting>, at: nat, key: Key)
    requires at < |rows| && rows[at].key != key
    ensures SameSittings(rows, rows[at := rows[at].(open := false)], key)
  {
    OpenSittingUpdate(rows, at, rows[at].(open := false), key);
    PriorUpdate(rows, at, rows[at].(open := false), key);
  }

  lemma SeatedElsewhere(rows: seq<Sitting>, x: Sitting, key: Key)
    requires x.key != key
    ensures SameSittings(rows, rows + [x], key)
  {
    OpenSittingFrame(rows, x, key);
    PriorAppend(rows, x, key);
  }

  /** Another learner's commit leaves this learner's sittings as they were. */
  lemma CommitOtherSittings(cfg: Config, db: Db, t: Tx, o: Tx)
    requires TxOk(cfg, db, t) && TxOk(cfg, db, o) && Apart(cfg, t, o) && Exclusive(cfg)
    requires HoldsLearner(cfg, o) && (o.req.Open? || o.req.Submit? || o.req.Close?)
    ensures SameSittings(db.sittings, Publish(cfg, db, t).sittings, o.req.key)
  {
    var key := o.req.key;
    assert HoldsLearner(cfg, t) ==> PersonOf(t.req) != key.person;
    if t.writes.close.Some? {
      ClosedElsewhere(db.sittings, t.writes.close.value, key);
    } else if t.writes.seat.Some? {
      SeatedElsewhere(db.sittings, t.writes.seat.value, key);
    }
  }

  lemma CommitOtherLocks(cfg: Config, db: Db, t: Tx, o: Tx)
    requires TxOk(cfg, db, t) && TxOk(cfg, db, o) && Apart(cfg, t, o)
    ensures LocksOk(cfg, Publish(cfg, db, t), o)
  {
    assert HoldsCompletion(cfg, t) && HoldsCompletion(cfg, o) ==> CourseOf(cfg, t.req) != CourseOf(cfg, o.req);
  }

  /** Tables in which the course of a completion-row holder has changed in no way. */
  ghost predicate CourseKept(db: Db, after: Db, ck: CourseKey) {
    && (ck in after.completions <==> ck in db.completions)
    && (ck in db.completions ==> after.completions[ck] == db.completions[ck])
    && (FindCert(db.certs, ck).None? ==> FindCert(after.certs, ck).None?)
  }

  lemma PublishKeepsCourse(cfg: Config, db: Db, t: Tx, ck: CourseKey)
    requires CourseOf(cfg, t.req) == ck ==> !t.writes.anchor && t.writes.status.None? && t.writes.cert.None?
    requires t.writes.cert.Some? ==> t.writes.cert.value.ck == CourseOf(cfg, t.req)
    ensures CourseKept(db, Publish(cfg, db, t), ck)
  {
  }

  lemma CertificateStays(cfg: Config, db: Db, after: Db, o: Tx)
    requires CertificateOk(cfg, db, o) && db.certs <= after.certs
    requires HoldsCompletion(cfg, o) ==> CourseKept(db, after, CourseOf(cfg, o.req))
    ensures CertificateOk(cfg, after, o)
  {
  }

  lemma CommitOtherCertificate(cfg: Config, db: Db, t: Tx, o: Tx)
    requires TxOk(cfg, db, t) && TxOk(cfg, db, o) && Apart(cfg, t, o)
    ensures CertificateOk(cfg, Publish(cfg, db, t), o)
  {
    if HoldsCompletion(cfg, o) {
      assert HoldsCompletion(cfg, t) ==> CourseOf(cfg, t.req) != CourseOf(cfg, o.req);
      PublishKeepsCourse(cfg, db, t, CourseOf(cfg, o.req));
    }
    CertificateStays(cfg, db, Publish(cfg, db, t), o);
  }

  lemma CommitOther(cfg: Config, db: Db, t: Tx, o: Tx)
    requires TxOk(cfg, db, t) && TxOk(cfg, db, o) && Apart(cfg, t, o) && Exclusive(cfg)
    ensures TxOk(cfg, Publish(cfg, db, t), o)
  {
    CommitOtherLocks(cfg, db, t, o);
    CommitOtherCertificate(cfg, db, t, o);
    if o.req.Submit? {
      CommitOtherSubmit(cfg, db, t, o);
    }
    if HoldsLearner(cfg, o) && (o.req.Open? || o.req.Submit? || o.req.Close?) {
      CommitOtherSittings(cfg, db, t, o);
    }
  }

  lemma CommitSelf(cfg: Config, db: Db, t: Tx)
    requires TxOk(cfg, db, t) && t.pc == Commit
    ensures TxOk(cfg, Publish(cfg, db, t), Finish(db, t))
  {
  }

  // ---- Every run ----

  lemma ReplaceTx(cfg: Config, db: Db, txs: seq<Tx>, i: nat, u: Tx)
    requires i < |txs| && DbOk(cfg, db) && TxOk(cfg, db, u)
    requires forall j :: 0 <= j < |txs| && j != i ==> TxOk(cfg, db, txs[j])
    requires forall j :: 0 <= j < |txs| && j != i ==> Apart(cfg, u, txs[j]) && Apart(cfg, txs[j], u)
    requires forall j, k :: 0 <= j < |txs| && 0 <= k < |txs| && j != i && k != i && j != k ==>
             Apart(cfg, txs[j], txs[k])
    ensures Inv(cfg, State(db, txs[i := u]))
  {
    var r := txs[i := u];
    forall j, k | 0 <= j < |r| && 0 <= k < |r| && j != k ensures Apart(cfg, r[j], r[k]) {
      assert (j != i ==> r[j] == txs[j]) && (k != i ==> r[k] == txs[k]);
    }
  }

  /** A transaction that moves on its own leaves the tables as they were. */
  lemma MoveKeepsInv(cfg: Config, s: State, i: nat, u: Tx)
    requires Inv(cfg, s) && i < |s.txs| && TxOk(cfg, s.db, u)
    requires forall j :: 0 <= j < |s.txs| && j != i ==> Apart(cfg, u, s.txs[j]) && Apart(cfg, s.txs[j], u)
    ensures Inv(cfg, State(s.db, s.txs[i := u]))
  {
    ReplaceTx(cfg, s.db, s.txs, i, u);
  }

  lemma AbortKeepsInv(cfg: Config, s: State, i: nat)
    requires Inv(cfg, s) && i < |s.txs|
    ensures Inv(cfg, State(s.db, s.txs[i := Fail(s.txs[i])]))
  {
    var u := Fail(s.txs[i]);
    assert TxOk(cfg, s.db, s.txs[i]);
    assert TxOk(cfg, s.db, u);
    MoveKeepsInv(cfg, s, i, u);
  }

  lemma CommitKeepsInv(cfg: Config, s: State, i: nat)
    requires Inv(cfg, s) && Exclusive(cfg) && i < |s.txs| && s.txs[i].pc == Commit
    ensures Inv(cfg, State(Publish(cfg, s.db, s.txs[i]), s.txs[i := Finish(s.db, s.txs[i])]))
  {
    var t := s.txs[i];
    assert TxOk(cfg, s.db, t);
    CommitDb(cfg, s.db, t);
    CommitSelf(cfg, s.db, t);
    forall j | 0 <= j < |s.txs| && j != i ensures TxOk(cfg, Publish(cfg, s.db, t), s.txs[j]) {
      assert Apart(cfg, t, s.txs[j]);
      CommitOther(cfg, s.db, t, s.txs[j]);
    }
    ReplaceTx(cfg, Publish(cfg, s.db, t), s.txs, i, Finish(s.db, t));
  }

  lemma AdvanceApartAll(cfg: Config, s: State, i: nat)
    requires Inv(cfg, s) && Enabled(cfg, s, i) && s.txs[i].pc != Commit
    ensures forall j :: 0 <= j < |s.txs| && j != i ==>
              && Apart(cfg, Advance(cfg, s.db, s.txs[i]), s.txs[j])
              && Apart(cfg, s.txs[j], Advance(cfg, s.db, s.txs[i]))
  {
    forall j | 0 <= j < |s.txs| && j != i
      ensures Apart(cfg, Advance(cfg, s.db, s.txs[i]), s.txs[j])
      ensures Apart(cfg, s.txs[j], Advance(cfg, s.db, s.txs[i]))
    {
      AdvanceApart(cfg, s, i, j);
    }
  }

  lemma AdvanceKeepsInv(cfg: Config, s: State, i: nat)
    requires Inv(cfg, s) && Enabled(cfg, s, i) && s.txs[i].pc != Commit
    ensures Inv(cfg, State(s.db, s.txs[i := Advance(cfg, s.db, s.txs[i])]))
  {
    AdvanceOk(cfg, s.db, s.txs[i]);
    AdvanceApartAll(cfg, s, i);
    MoveKeepsInv(cfg, s, i, Advance(cfg, s.db, s.txs[i]));
  }

  lemma ActKeepsInv(cfg: Config, s: State, a: Action)
    requires Inv(cfg, s) && CanAct(cfg, s, a) && Exclusive(cfg)
    ensures Inv(cfg, Act(cfg, s, a))
  {
    if a.Abort? {
      AbortKeepsInv(cfg, s, a.i);
    } else if s.txs[a.i].pc == Commit {
      CommitKeepsInv(cfg, s, a.i);
    } else {
      AdvanceKeepsInv(cfg, s, a.i);
    }
  }

  lemma InitialInv(cfg: Config, s: State)
    requires Initial(cfg, s) && DbOk(cfg, s.db)
    ensures Inv(cfg, s)
  {
  }

  lemma {:induction false} RunKeepsInv(cfg: Config, s: State, schedule: seq<Action>)
    requires Inv(cfg, s) && Exclusive(cfg) && Run(cfg, s, schedule).Some?
    ensures Inv(cfg, Run(cfg, s, schedule).value)
    decreases |schedule|
  {
    if schedule != [] {
      ActKeepsInv(cfg, s, schedule[0]);
      RunKeepsInv(cfg, Act(cfg, s, schedule[0]), schedule[1..]);
    }
  }
}
