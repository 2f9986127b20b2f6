/** Consequences of serializability: a request that runs alone, and when sittings
    open and close. */
module SerialRuns {
  import opened AttemptTables
  import opened AttemptPolicy
  import opened AssessmentProtocol
  import opened ProtocolSafety
  import opened ProtocolTheorems
  import opened SerialSpec
  import opened Serializability

  // ---- A request that runs alone ----

  function Alone(cfg: Config, db: Db, r: Request): State { State(db, [Start(cfg, r)]) }

  /** What an allowed request that meets nobody knows on its way. */
  ghost predicate OnTrack(cfg: Config, db: Db, t: Tx) {
    && (t.pc == Admit ==> t.req.Submit? && t.granted == Granted(db.grants, t.req.key))
    && (t.pc.RecheckCertificate? && CourseOf(cfg, t.req) in db.completions ==> HoldsCompletion(cfg, t))
  }

  lemma TrackKept(cfg: Config, db: Db, t: Tx)
    requires Fits(t) && OnTrack(cfg, db, t) && t.pc != Commit && !Finished(t)
    ensures OnTrack(cfg, db, Advance(cfg, db, t))
  {
  }

  lemma SubmissionPasses(cfg: Config, db: Db, t: Tx)
    requires Submitting(t.pc) && Fits(t) && RowsOk(cfg, db, t) && OnTrack(cfg, db, t)
    requires Allowed(cfg, db, t.req) && (t.req.Submit? ==> AttemptsOk(cfg, db, t.req.key))
    ensures !Finished(Advance(cfg, db, t))
  {
    if t.pc == InsertSubmission {
      assert Submission(t.req.key, t.number) !in db.subs;
    }
  }

  lemma CompletionPasses(cfg: Config, db: Db, t: Tx)
    requires Completing(t.pc) && Fits(t)
    ensures !Finished(Advance(cfg, db, t))
  {
  }

  lemma CertificatePasses(cfg: Config, db: Db, t: Tx)
    requires Certifying(t.pc) && Fits(t) && CertificateOk(cfg, db, t) && StatusPrepared(cfg, db, t)
    requires OnTrack(cfg, db, t) && Allowed(cfg, db, t.req)
    ensures !Finished(Advance(cfg, db, t))
  {
    CertsSeen(db, CourseOf(cfg, t.req));
  }

  lemma SittingPasses(cfg: Config, db: Db, t: Tx)
    requires (Opening(t.pc) || t.pc == InsertGrant) && Fits(t) && SeatsOk(cfg, db, t) && Allowed(cfg, db, t.req)
    ensures !Finished(Advance(cfg, db, t))
  {
  }

  lemma AllowedPasses(cfg: Config, db: Db, t: Tx)
    requires TxOk(cfg, db, t) && Prepared(cfg, db, t) && OnTrack(cfg, db, t) && Allowed(cfg, db, t.req)
    requires DbOk(cfg, db) && t.pc != Commit && !Finished(t)
    ensures !Finished(Advance(cfg, db, t))
  {
    assert LocksOk(cfg, db, t) && CertificateOk(cfg, db, t);
    if Submitting(t.pc) {
      assert t.req.Submit? ==> AttemptsOk(cfg, db, t.req.key);
      SubmissionPasses(cfg, db, t);
    } else if Completing(t.pc) {
      CompletionPasses(cfg, db, t);
    } else if Certifying(t.pc) {
      CertificatePasses(cfg, db, t);
    } else {
      SittingPasses(cfg, db, t);
    }
  }

  /** The request is under way over untouched tables, or has had its effect, or was
      refused because it was not allowed. */
  ghost predicate Lone(cfg: Config, db: Db, r: Request, s: State) {
    && |s.txs| == 1 && s.txs[0].req == r
    && if !Finished(s.txs[0]) then s.db == db && OnTrack(cfg, db, s.txs[0])
       else if Allowed(cfg, db, r) then s.db == Effect(cfg, db, r) && Answers(s.db, r, s.txs[0].pc.outcome)
       else s.db == db && s.txs[0].pc == Done(Refused)
  }

  lemma GoLone(cfg: Config, db: Db, r: Request, s: State)
    requires AllPrepared(cfg, s) && Lone(cfg, db, r, s) && CanAct(cfg, s, Go(0))
    ensures Lone(cfg, db, r, Act(cfg, s, Go(0)))
  {
    var t := s.txs[0];
    assert TxOk(cfg, s.db, t) && Prepared(cfg, s.db, t);
    if t.pc == Commit {
      CommitIsSerial(cfg, s, 0);
    } else {
      AdvanceKeeps(cfg, db, t);
      TrackKept(cfg, db, t);
      if Allowed(cfg, db, r) {
        AllowedPasses(cfg, db, t);
      }
    }
  }

  lemma {:induction false} LoneRuns(cfg: Config, db: Db, r: Request, s: State, schedule: seq<Action>)
    requires Exclusive(cfg) && AllPrepared(cfg, s) && Lone(cfg, db, r, s) && Run(cfg, s, schedule).Some?
    requires forall k :: 0 <= k < |schedule| ==> schedule[k].Go?
    ensures Lone(cfg, db, r, Run(cfg, s, schedule).value)
    decreases |schedule|
  {
    if schedule != [] {
      assert schedule[0] == Go(0);
      GoLone(cfg, db, r, s);
      ActKeepsPrepared(cfg, s, schedule[0]);
      LoneRuns(cfg, db, r, Act(cfg, s, schedule[0]), schedule[1..]);
    }
  }

  /** A request that runs alone to its end has its effect and its answer if the
      tables allow it, and otherwise is refused and changes nothing. */
  lemma AloneIsSerial(cfg: Config, db: Db, r: Request, schedule: seq<Action>)
    requires Exclusive(cfg) && DbOk(cfg, db) && Run(cfg, Alone(cfg, db, r), schedule).Some?
    requires forall k :: 0 <= k < |schedule| ==> schedule[k].Go?
    ensures var s := Run(cfg, Alone(cfg, db, r), schedule).value;
            && |s.txs| == 1
            && (Finished(s.txs[0]) ==>
                  if Allowed(cfg, db, r) then s.db == Effect(cfg, db, r) && Answers(s.db, r, s.txs[0].pc.outcome)
                  else s.db == db && s.txs[0].pc == Done(Refused))
  {
    InitialPrepared(cfg, Alone(cfg, db, r));
    LoneRuns(cfg, db, r, Alone(cfg, db, r), schedule);
  }

  // ---- Sittings ----

  /** Submitting a pooled activity, or closing its attempt, leaves the learner no
      open sitting on it, at whatever moment of whatever run it commits, and
      changes nothing else about any sitting. */
  lemma CloserLeavesNoneOpen(cfg: Config, s: State, schedule: seq<Action>, i: nat)
    requires Exclusive(cfg) && Initial(cfg, s) && DbOk(cfg, s.db) && Run(cfg, s, schedule).Some?
    requires var r := Run(cfg, s, schedule).value;
             CanAct(cfg, r, Go(i)) && r.txs[i].pc == Commit && Closes(cfg, r.txs[i].req)
    ensures var r := Run(cfg, s, schedule).value;
            var (key, after) := (r.txs[i].req.key, Act(cfg, r, Go(i)).db.sittings);
            && !HasOpen(after, key) && |after| == |r.db.sittings|
            && forall k :: 0 <= k < |after| ==>
                 after[k] == if r.db.sittings[k].key == key then r.db.sittings[k].(open := false) else r.db.sittings[k]
  {
    InitialPrepared(cfg, s);
    RunKeepsPrepared(cfg, s, schedule);
    CommitIsSerial(cfg, Run(cfg, s, schedule).value, i);
  }

  /** A sitting stays as it is until a submission or a close of its own learner and
      activity commits. */
  lemma OnlyClosersClose(cfg: Config, s: State, a: Action, k: nat)
    requires AllPrepared(cfg, s) && CanAct(cfg, s, a) && k < |s.db.sittings|
    ensures k < |Act(cfg, s, a).db.sittings|
    ensures Act(cfg, s, a).db.sittings[k] != s.db.sittings[k] ==>
              && s.db.sittings[k].open && a.Go? && s.txs[a.i].pc == Commit
              && Closes(cfg, s.txs[a.i].req) && s.txs[a.i].req.key == s.db.sittings[k].key
  {
    if a.Go? && s.txs[a.i].pc == Commit {
      CommitIsSerial(cfg, s, a.i);
    }
  }

  lemma ClosedStaysClosed(a: Db, b: Db, key: Key, at: nat)
    requires Grew(a, b) && !HasOpen(a.sittings, key) && IsOpen(b.sittings, key, at)
    ensures at >= |a.sittings|
  {
    if at < |a.sittings| {
      assert IsOpen(a.sittings, key, at);
    }
  }

  /** A finished open request that started after a close returns a later sitting. */
  lemma {:induction false} OpensLater(cfg: Config, start: Db, s: State, schedule: seq<Action>, i: nat, key: Key)
    returns (at: nat)
    requires Exclusive(cfg) && AllPrepared(cfg, s) && Run(cfg, s, schedule).Some?
    requires Grew(start, s.db) && !HasOpen(start.sittings, key)
    requires i < |s.txs| && s.txs[i].req.Open? && s.txs[i].req.key == key && !Finished(s.txs[i])
    requires var r := Run(cfg, s, schedule).value;
             i < |r.txs| && r.txs[i].pc.Done? && r.txs[i].pc.outcome != Refused
    ensures var r := Run(cfg, s, schedule).value;
            && r.txs[i].pc.outcome == Seated(at)
            && |start.sittings| <= at < |r.db.sittings| && r.db.sittings[at].key == key
    decreases |schedule|
  {
    var a, mid, rest := schedule[0], Act(cfg, s, schedule[0]), schedule[1..];
    ActGrows(cfg, s, a);
    ActKeepsPrepared(cfg, s, a);
    GrewOn(start, s.db, mid.db);
    if Finished(mid.txs[i]) {
      FinishedStays(cfg, mid, rest, i);
      RunGrows(cfg, mid, rest);
      at := OpensNow(cfg, start, s, a, i, key);
    } else {
      at := OpensLater(cfg, start, mid, rest, i, key);
    }
  }

  lemma OpensNow(cfg: Config, start: Db, s: State, a: Action, i: nat, key: Key) returns (at: nat)
    requires AllPrepared(cfg, s) && CanAct(cfg, s, a) && i < |s.txs| && !Finished(s.txs[i])
    requires Grew(start, Act(cfg, s, a).db) && !HasOpen(start.sittings, key)
    requires s.txs[i].req.Open? && s.txs[i].req.key == key
    requires Act(cfg, s, a).txs[i].pc.Done? && Act(cfg, s, a).txs[i].pc.outcome != Refused
    ensures var r := Act(cfg, s, a);
            && r.txs[i].pc.outcome == Seated(at)
            && |start.sittings| <= at < |r.db.sittings| && r.db.sittings[at].key == key
  {
    CommittedOpen(cfg, s, a, i);
    at := Act(cfg, s, a).txs[i].pc.outcome.sitting;
    ClosedStaysClosed(start, Act(cfg, s, a).db, key, at);
  }

  lemma GrewOn(a: Db, b: Db, c: Db)
    requires Grew(a, b) && Grew(b, c)
    ensures Grew(a, c)
  {
  }

  lemma CommittedOpen(cfg: Config, s: State, a: Action, i: nat)
    requires AllPrepared(cfg, s) && CanAct(cfg, s, a) && i < |s.txs| && s.txs[i].req.Open? && !Finished(s.txs[i])
    requires Act(cfg, s, a).txs[i].pc.Done? && Act(cfg, s, a).txs[i].pc.outcome != Refused
    ensures var r := Act(cfg, s, a);
            r.txs[i].pc.outcome.Seated? && IsOpen(r.db.sittings, s.txs[i].req.key, r.txs[i].pc.outcome.sitting)
  {
    FinishesAtCommit(cfg, s, a, i);
    CommitIsSerial(cfg, s, i);
  }

  /** A request that is not refused finishes at its COMMIT. */
  lemma FinishesAtCommit(cfg: Config, s: State, a: Action, i: nat)
    requires CanAct(cfg, s, a) && i < |s.txs| && !Finished(s.txs[i])
    requires Act(cfg, s, a).txs[i].pc.Done? && Act(cfg, s, a).txs[i].pc.outcome != Refused
    ensures a == Go(i) && s.txs[i].pc == Commit
  {
    var t := s.txs[a.i];
    if a.Go? && t.pc != Commit {
      AdvanceKeeps(cfg, s.db, t);
    }
  }

  lemma {:induction false} PriorBetween(a: seq<Sitting>, b: seq<Sitting>, key: Key)
    requires |a| <= |b| && forall i :: 0 <= i < |a| ==> b[i].key == a[i].key
    ensures Prior(a, key) <= Prior(b, key)
    ensures (forall i :: |a| <= i < |b| ==> b[i].key != key) ==> Prior(a, key) == Prior(b, key)
    decreases |b|
  {
    var n := |b| - 1;
    if |a| < |b| {
      PriorBetween(a, b[..n], key);
    } else if a != [] {
      PriorBetween(a[..n], b[..n], key);
    }
  }

  /** From any reachable state in which the learner has no open sitting on the
      activity, as after each submission and close: an open request that finishes
      later returns a sitting opened since, drawn as the next variant if no other
      was opened in between. */
  lemma NextSittingIsNew(cfg: Config, s: State, schedule: seq<Action>, i: nat, key: Key) returns (at: nat)
    requires Exclusive(cfg) && AllPrepared(cfg, s) && Run(cfg, s, schedule).Some?
    requires !HasOpen(s.db.sittings, key)
    requires i < |s.txs| && s.txs[i].req.Open? && s.txs[i].req.key == key && !Finished(s.txs[i])
    requires var r := Run(cfg, s, schedule).value;
             i < |r.txs| && r.txs[i].pc.Done? && r.txs[i].pc.outcome != Refused
    ensures var r := Run(cfg, s, schedule).value;
            && r.txs[i].pc.outcome == Seated(at)
            && |s.db.sittings| <= at < |r.db.sittings| && r.db.sittings[at].key == key
            && r.db.sittings[at].variant >= Prior(s.db.sittings, key)
            && ((forall k :: |s.db.sittings| <= k < at ==> r.db.sittings[k].key != key) ==>
                  r.db.sittings[at].variant == Prior(s.db.sittings, key))
  {
    at := OpensLater(cfg, s.db, s, schedule, i, key);
    RunKeepsPrepared(cfg, s, schedule);
    RunGrows(cfg, s, schedule);
    VariantSince(s.db, Run(cfg, s, schedule).value.db, at, key);
  }

  lemma VariantSince(a: Db, b: Db, at: nat, key: Key)
    requires Grew(a, b) && SittingsOk(b.sittings)
    requires |a.sittings| <= at < |b.sittings| && b.sittings[at].key == key
    ensures b.sittings[at].variant >= Prior(a.sittings, key)
    ensures (forall k :: |a.sittings| <= k < at ==> b.sittings[k].key != key) ==>
              b.sittings[at].variant == Prior(a.sittings, key)
  {
    PriorBetween(a.sittings, b.sittings[..at], key);
  }
}
