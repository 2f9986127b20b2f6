/** Progress of the assessment writers, and why the learner's row is locked
    FOR NO KEY UPDATE: of the four PostgreSQL row locks it is the only one
    under which no run deadlocks and every run keeps the attempt numbering. */
module ProtocolLiveness {
  import opened Options
  import opened AttemptTables
  import opened AssessmentProtocol
  import opened ProtocolSafety

  // ---- Deadlock freedom ----

  predicate Owner(cfg: Config, t: Tx) {
    !Finished(t) && (t.writes.anchor || HoldsCompletion(cfg, t))
  }

  lemma HoldersDiffer(cfg: Config, t: Tx, o: Tx)
    requires Exclusive(cfg) && Apart(cfg, t, o)
    ensures HoldsLearner(cfg, t) && HoldsLearner(cfg, o) ==> PersonOf(t.req) != PersonOf(o.req)
    ensures HoldsCompletion(cfg, t) && HoldsCompletion(cfg, o) ==> CourseOf(cfg, t.req) != CourseOf(cfg, o.req)
  {
  }

  lemma SubmissionsApart(cfg: Config, t: Tx, o: Tx, db: Db)
    requires Exclusive(cfg) && TxOk(cfg, db, t) && TxOk(cfg, db, o) && Apart(cfg, t, o) && t.pc == InsertSubmission
    ensures !SameUniqueKey(cfg, t, o)
  {
    HoldersDiffer(cfg, t, o);
  }

  lemma SittingsApart(cfg: Config, t: Tx, o: Tx, db: Db)
    requires Exclusive(cfg) && TxOk(cfg, db, t) && TxOk(cfg, db, o) && Apart(cfg, t, o) && t.pc == InsertSitting
    ensures !SameUniqueKey(cfg, t, o)
  {
    HoldersDiffer(cfg, t, o);
  }

  lemma CertificatesApart(cfg: Config, t: Tx, o: Tx, db: Db)
    requires Exclusive(cfg) && TxOk(cfg, db, t) && TxOk(cfg, db, o) && Apart(cfg, t, o) && t.pc == InsertCertificate
    ensures !SameUniqueKey(cfg, t, o)
  {
    HoldersDiffer(cfg, t, o);
  }

  /** Rows guarded by a lock its writer already has are never waited for: only
      the first insertion of a completion row can block. */
  lemma OnlyAnchorsBlock(cfg: Config, t: Tx, o: Tx, db: Db)
    requires Exclusive(cfg) && TxOk(cfg, db, t) && TxOk(cfg, db, o) && Apart(cfg, t, o)
    ensures SameUniqueKey(cfg, t, o) ==> t.pc == EnsureAnchor && o.writes.anchor && !Owner(cfg, t)
  {
    match t.pc {
      case InsertSubmission => SubmissionsApart(cfg, t, o, db);
      case InsertSitting => SittingsApart(cfg, t, o, db);
      case InsertCertificate => CertificatesApart(cfg, t, o, db);
      case EnsureAnchor => HoldersDiffer(cfg, t, o);
      case _ =>
    }
  }

  lemma OwnerNotInsertBlocked(cfg: Config, s: State, i: nat)
    requires Exclusive(cfg) && Inv(cfg, s) && i < |s.txs| && Owner(cfg, s.txs[i])
    ensures !InsertBlocked(cfg, s, i)
  {
    var t := s.txs[i];
    forall j | 0 <= j < |s.txs| && j != i ensures !SameUniqueKey(cfg, t, s.txs[j]) {
      assert TxOk(cfg, s.db, t) && TxOk(cfg, s.db, s.txs[j]) && Apart(cfg, t, s.txs[j]);
      OnlyAnchorsBlock(cfg, t, s.txs[j], s.db);
    }
  }

  /** A blocked INSERT is the first insertion of a completion row. */
  lemma BlockedAtAnchor(cfg: Config, s: State, i: nat) returns (j: nat)
    requires Exclusive(cfg) && Inv(cfg, s) && i < |s.txs| && InsertBlocked(cfg, s, i)
    ensures s.txs[i].pc == EnsureAnchor && j < |s.txs| && j != i && s.txs[j].writes.anchor
  {
    j :| 0 <= j < |s.txs| && j != i && SameUniqueKey(cfg, s.txs[i], s.txs[j]);
    assert TxOk(cfg, s.db, s.txs[i]) && TxOk(cfg, s.db, s.txs[j]) && Apart(cfg, s.txs[i], s.txs[j]);
    OnlyAnchorsBlock(cfg, s.txs[i], s.txs[j], s.db);
  }

  lemma OwnerPair(cfg: Config, db: Db, t: Tx, o: Tx, l: Lock)
    requires cfg.learnerMode == NoKeyUpdate && TxOk(cfg, db, t) && TxOk(cfg, db, o) && Apart(cfg, o, t)
    requires Owner(cfg, t) && Needs(cfg, db, t).Some?
    requires l in o.held && l.res == Needs(cfg, db, t).value.res
    ensures !Conflicts(l.mode, Needs(cfg, db, t).value.mode)
  {
  }

  /** A holder of a completion row waits only for the foreign-key lock on the
      learner's row, which a NO KEY UPDATE lock admits. */
  lemma OwnerMoves(cfg: Config, s: State, i: nat)
    requires cfg.learnerMode == NoKeyUpdate && Inv(cfg, s)
    requires i < |s.txs| && Owner(cfg, s.txs[i])
    ensures Enabled(cfg, s, i)
  {
    var needs := Needs(cfg, s.db, s.txs[i]);
    if needs.Some? {
      forall j, l | 0 <= j < |s.txs| && j != i && l in s.txs[j].held && l.res == needs.value.res
        ensures !Conflicts(l.mode, needs.value.mode)
      {
        OwnerPair(cfg, s.db, s.txs[i], s.txs[j], l);
      }
    }
    OwnerNotInsertBlocked(cfg, s, i);
  }

  lemma BlockingPair(cfg: Config, db: Db, t: Tx, o: Tx, lock: Lock, l: Lock)
    requires cfg.learnerMode == NoKeyUpdate && LocksOk(cfg, db, o) && Apart(cfg, o, t)
    requires lock in {LearnerLock(cfg, t), CompletionLock(cfg, t), ForeignKeyLock(t)}
    requires l in o.held && l.res == lock.res && Conflicts(l.mode, lock.mode)
    ensures !Finished(o)
    ensures Owner(cfg, o) ||
            (HoldsLearner(cfg, o) && PersonOf(o.req) == PersonOf(t.req)
             && lock == LearnerLock(cfg, t) && !HoldsLearner(cfg, t))
  {
    if lock == CompletionLock(cfg, t) {
      assert l == CompletionLock(cfg, o);
    } else {
      assert l == LearnerLock(cfg, o) || l == ForeignKeyLock(o);
    }
  }

  /** Who blocks a lock request: the owner of the completion row, or the
      transaction that has locked the learner's row. */
  lemma Blocker(cfg: Config, s: State, i: nat) returns (j: nat)
    requires cfg.learnerMode == NoKeyUpdate && Inv(cfg, s)
    requires i < |s.txs| && Needs(cfg, s.db, s.txs[i]).Some?
    requires !Grantable(s.txs, i, Needs(cfg, s.db, s.txs[i]).value)
    ensures j < |s.txs| && j != i && !Finished(s.txs[j])
    ensures Owner(cfg, s.txs[j]) ||
            (HoldsLearner(cfg, s.txs[j]) && PersonOf(s.txs[j].req) == PersonOf(s.txs[i].req)
             && Needs(cfg, s.db, s.txs[i]).value == LearnerLock(cfg, s.txs[i]) && !HoldsLearner(cfg, s.txs[i]))
  {
    var lock := Needs(cfg, s.db, s.txs[i]).value;
    NeedsWhat(cfg, s.db, s.txs[i]);
    var l;
    j, l :| 0 <= j < |s.txs| && j != i && l in s.txs[j].held && l.res == lock.res && Conflicts(l.mode, lock.mode);
    assert LocksOk(cfg, s.db, s.txs[j]) by { assert TxOk(cfg, s.db, s.txs[j]); }
    assert Apart(cfg, s.txs[j], s.txs[i]);
    BlockingPair(cfg, s.db, s.txs[i], s.txs[j], lock, l);
  }

  /** A transaction that holds the learner's row, or does not want it, can move,
      or the owner of the completion row it waits for can. */
  lemma CompletionWaiterMoves(cfg: Config, s: State, i: nat) returns (j: nat)
    requires cfg.learnerMode == NoKeyUpdate && Inv(cfg, s)
    requires i < |s.txs| && !Finished(s.txs[i])
    requires Needs(cfg, s.db, s.txs[i]) == Some(LearnerLock(cfg, s.txs[i])) ==> HoldsLearner(cfg, s.txs[i])
    ensures Enabled(cfg, s, j)
  {
    var needs := Needs(cfg, s.db, s.txs[i]);
    if needs.Some? && !Grantable(s.txs, i, needs.value) {
      j := Blocker(cfg, s, i);
      OwnerMoves(cfg, s, j);
    } else if InsertBlocked(cfg, s, i) {
      j := BlockedAtAnchor(cfg, s, i);
      assert TxOk(cfg, s.db, s.txs[j]);
      OwnerMoves(cfg, s, j);
    } else {
      j := i;
    }
  }

  /** No step both takes a lock and inserts a row with a unique key. */
  lemma LockStepInsertsNothing(cfg: Config, s: State, i: nat)
    requires i < |s.txs| && Needs(cfg, s.db, s.txs[i]).Some?
    ensures !InsertBlocked(cfg, s, i)
  {
  }

  /** In every reachable state in which some transaction is unfinished, some
      transaction can take its next step: the requests never deadlock. */
  lemma SomeoneMoves(cfg: Config, s: State, i: nat) returns (j: nat)
    requires cfg.learnerMode == NoKeyUpdate && Inv(cfg, s)
    requires i < |s.txs| && !Finished(s.txs[i])
    ensures Enabled(cfg, s, j)
  {
    var needs := Needs(cfg, s.db, s.txs[i]);
    if needs.Some? && !Grantable(s.txs, i, needs.value) {
      var k := Blocker(cfg, s, i);
      j := CompletionWaiterMoves(cfg, s, k);
    } else if needs.Some? {
      LockStepInsertsNothing(cfg, s, i);
      j := i;
    } else {
      j := CompletionWaiterMoves(cfg, s, i);
    }
  }

  // ---- Every run ends ----

  function Rank(pc: Pc): nat {
    match pc
    case LockForClose => 23
    case CloseSitting => 22
    case LockForSubmit => 21
    case CountUsed => 20
    case SumGrants => 19
    case Admit => 18
    case NumberAttempt => 17
    case InsertSubmission => 16
    case LearnerEvent => 15
    case EnsureAnchor => 14
    case LockAnchor => 13
    case Recompute => 12
    case ReadCertificate => 11
    case LockCompletion => 10
    case RecheckCertificate => 9
    case InsertCertificate => 8
    case CertificateEvent => 7
    case LockForOpen => 6
    case FindSitting => 5
    case CountPrior => 4
    case InsertSitting => 3
    case SittingEvent => 2
    case InsertGrant => 2
    case Commit => 1
    case Done(_) => 0
  }

  function Remaining(txs: seq<Tx>): nat {
    if txs == [] then 0 else Rank(txs[0].pc) + Remaining(txs[1..])
  }

  lemma {:induction false} RemainingUpdate(txs: seq<Tx>, i: nat, u: Tx)
    requires i < |txs|
    ensures Remaining(txs[i := u]) == Remaining(txs) - Rank(txs[i].pc) + Rank(u.pc)
  {
    if i == 0 {
      assert txs[0 := u][1..] == txs[1..];
    } else {
      assert txs[i := u][1..] == txs[1..][i - 1 := u];
      RemainingUpdate(txs[1..], i - 1, u);
    }
  }

  lemma {:induction false} RemainingZero(txs: seq<Tx>)
    requires forall i :: 0 <= i < |txs| ==> Finished(txs[i])
    ensures Remaining(txs) == 0
  {
    if txs != [] {
      RemainingZero(txs[1..]);
    }
  }

  lemma SubmissionDescends(cfg: Config, db: Db, t: Tx)
    requires Submitting(t.pc) || Completing(t.pc)
    ensures Rank(Advance(cfg, db, t).pc) < Rank(t.pc)
  {
  }

  lemma CertificateDescends(cfg: Config, db: Db, t: Tx)
    requires Certifying(t.pc)
    ensures Rank(Advance(cfg, db, t).pc) < Rank(t.pc)
  {
  }

  lemma SeatInsertDescends(cfg: Config, db: Db, t: Tx)
    requires t.pc.InsertSitting? || t.pc.InsertGrant?
    ensures Rank(Advance(cfg, db, t).pc) < Rank(t.pc)
  {
  }

  lemma SittingDescends(cfg: Config, db: Db, t: Tx)
    requires Opening(t.pc) || t.pc == InsertGrant
    ensures Rank(Advance(cfg, db, t).pc) < Rank(t.pc)
  {
    if t.pc.InsertSitting? || t.pc.InsertGrant? {
      SeatInsertDescends(cfg, db, t);
    }
  }

  lemma StepDescends(cfg: Config, s: State, a: Action)
    requires CanAct(cfg, s, a)
    ensures |Act(cfg, s, a).txs| == |s.txs| && Act(cfg, s, a).txs == s.txs[a.i := Act(cfg, s, a).txs[a.i]]
    ensures Rank(Act(cfg, s, a).txs[a.i].pc) < Rank(s.txs[a.i].pc)
  {
    var t := s.txs[a.i];
    if a.Go? && t.pc != Commit {
      if Submitting(t.pc) || Completing(t.pc) {
        SubmissionDescends(cfg, s.db, t);
      } else if Certifying(t.pc) {
        CertificateDescends(cfg, s.db, t);
      } else {
        SittingDescends(cfg, s.db, t);
      }
    }
  }

  lemma ActDescends(cfg: Config, s: State, a: Action)
    requires CanAct(cfg, s, a)
    ensures Remaining(Act(cfg, s, a).txs) < Remaining(s.txs)
  {
    StepDescends(cfg, s, a);
    RemainingUpdate(s.txs, a.i, Act(cfg, s, a).txs[a.i]);
  }

  /** No schedule is longer than the work its requests contain. */
  lemma {:induction false} RunsAreBounded(cfg: Config, s: State, schedule: seq<Action>)
    requires Run(cfg, s, schedule).Some?
    ensures |schedule| <= Remaining(s.txs)
    decreases |schedule|
  {
    if schedule != [] {
      ActDescends(cfg, s, schedule[0]);
      RunsAreBounded(cfg, Act(cfg, s, schedule[0]), schedule[1..]);
    }
  }

  ghost predicate AllFinished(s: State) {
    forall i :: 0 <= i < |s.txs| ==> Finished(s.txs[i])
  }

  /** A schedule of program steps only, after which every request is finished. */
  ghost predicate Finishes(cfg: Config, s: State, schedule: seq<Action>) {
    && (forall k :: 0 <= k < |schedule| ==> schedule[k].Go?)
    && Run(cfg, s, schedule).Some? && AllFinished(Run(cfg, s, schedule).value)
  }

  lemma FinishFirst(cfg: Config, s: State, j: nat, rest: seq<Action>) returns (schedule: seq<Action>)
    requires Enabled(cfg, s, j) && Finishes(cfg, Act(cfg, s, Go(j)), rest)
    ensures Finishes(cfg, s, schedule)
  {
    schedule := [Go(j)] + rest;
    RunFirst(cfg, s, Go(j), rest);
  }

  lemma RunFirst(cfg: Config, s: State, a: Action, rest: seq<Action>)
    requires CanAct(cfg, s, a)
    ensures Run(cfg, s, [a] + rest) == Run(cfg, Act(cfg, s, a), rest)
  {
    assert ([a] + rest)[1..] == rest;
  }

  /** From every reachable state the requests can all be finished without
      rolling any of them back; with RunsAreBounded, no scheduler that keeps
      running enabled steps can avoid it. */
  lemma {:induction false} CanFinish(cfg: Config, s: State) returns (schedule: seq<Action>)
    requires cfg.learnerMode == NoKeyUpdate && Inv(cfg, s)
    ensures Finishes(cfg, s, schedule)
    decreases Remaining(s.txs)
  {
    if AllFinished(s) {
      schedule := [];
    } else {
      var i :| 0 <= i < |s.txs| && !Finished(s.txs[i]);
      var j := SomeoneMoves(cfg, s, i);
      var mid := Act(cfg, s, Go(j));
      ActKeepsInv(cfg, s, Go(j));
      ActDescends(cfg, s, Go(j));
      var rest := CanFinish(cfg, mid);
      schedule := FinishFirst(cfg, s, j, rest);
    }
  }

  ghost predicate Stuck(cfg: Config, s: State) {
    && !AllFinished(s)
    && forall i :: 0 <= i < |s.txs| ==> !Enabled(cfg, s, i)
  }

  /** The two demands on the learner's lock, over every table content that
      meets the invariants, every list of requests and every schedule. */
  ghost predicate NeverStuck(cfg: Config) {
    forall s, schedule :: Initial(cfg, s) && DbOk(cfg, s.db) && Run(cfg, s, schedule).Some? ==>
      !Stuck(cfg, Run(cfg, s, schedule).value)
  }

  ghost predicate AttemptsKept(cfg: Config) {
    forall s, schedule, key: Key ::
      Initial(cfg, s) && DbOk(cfg, s.db) && Run(cfg, s, schedule).Some? && cfg.terms(key.activity).mcq ==>
        AttemptsOk(cfg, Run(cfg, s, schedule).value.db, key)
  }
}
