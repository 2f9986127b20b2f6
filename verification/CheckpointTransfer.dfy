/** Migration 0066: ERP acknowledgements move from `course_completions` to a
    checkpoint table and back, and the sync service writes in between. */
module CheckpointTransfer {
  import opened Options

  type Id = nat
  type Time = int
  datatype Key = Key(tenant: Id, completion: Id)
  type Stamps = map<Key, Option<Time>>

  datatype Failure = TableExists | NoTable | Mismatch | Conflicting | VerificationFailed

  // ---- The three comparisons, as the SQL joins state them ----

  /** FULL JOIN: a key on one side only, or distinct times. */
  predicate Differ(c: Stamps, p: Stamps) {
    exists k :: k in c.Keys + p.Keys && (k !in c || k !in p || c[k] != p[k])
  }

  predicate Conflict(c: Stamps, p: Stamps) {
    exists k :: k in c.Keys + p.Keys && (k !in c || (c[k].Some? && (k !in p || c[k] != p[k])))
  }

  /** LEFT JOIN from the checkpoints. */
  predicate Unfaithful(c: Stamps, p: Stamps) {
    exists k :: k in p && (k !in c || c[k] != p[k])
  }

  /** UPDATE ... FROM: rows with a checkpoint take its time, NULL included. */
  function Overwrite(c: Stamps, p: Stamps): Stamps {
    map k | k in c :: if k in p then p[k] else c[k]
  }

  // ---- The migration ----

  class Database {
    var completions: Stamps
    var checkpoints: Option<Stamps>      // None: the table does not exist

    constructor (completions: Stamps)
      ensures this.completions == completions && checkpoints == None
    {
      this.completions := completions;
      checkpoints := None;
    }

    method RequireEqual() returns (equal: bool)
      requires checkpoints.Some?
      ensures equal <==> completions == checkpoints.value
    {
      equal := !Differ(completions, checkpoints.value);
      EqualIff(completions, checkpoints.value);
    }

    /** A migration runs in one transaction, so a failure leaves the tables alone. */
    method Upgrade() returns (failure: Option<Failure>)
      modifies this
      ensures completions == old(completions)
      ensures failure.None? ==> old(checkpoints).None? && checkpoints == Some(old(completions))
      ensures failure.Some? ==> failure == Some(TableExists) && old(checkpoints).Some?
      ensures failure.Some? ==> checkpoints == old(checkpoints)
    {
      if checkpoints.Some? { return Some(TableExists); }
      checkpoints := Some(map[]);
      var pending := completions;
      while pending != map[]
        invariant checkpoints.Some? && pending.Keys <= completions.Keys
        invariant checkpoints.value.Keys == completions.Keys - pending.Keys
        invariant forall k :: k in checkpoints.value ==> checkpoints.value[k] == completions[k]
        invariant completions == old(completions)
        decreases |pending|
      {
        var k :| k in pending;
        checkpoints := Some(checkpoints.value[k := completions[k]]);
        assert pending == (pending - {k})[k := pending[k]];
        pending := pending - {k};
      }
      var equal := RequireEqual();
      assert equal;
      failure := None;
    }

    method Downgrade() returns (failure: Option<Failure>)
      modifies this
      ensures failure == None || failure == Some(NoTable) || failure == Some(Conflicting)
      ensures failure == Some(NoTable) <==> old(checkpoints).None?
      ensures failure == Some(Conflicting) <==>
              old(checkpoints).Some? && Conflict(old(completions), old(checkpoints).value)
      ensures failure.None? ==>
                completions == Overwrite(old(completions), old(checkpoints).value) && checkpoints == None
      ensures failure.Some? ==> completions == old(completions) && checkpoints == old(checkpoints)
    {
      if checkpoints.None? { return Some(NoTable); }
      var p := checkpoints.value;
      if Conflict(completions, p) { return Some(Conflicting); }
      VerificationHolds(completions, p);
      completions := Overwrite(completions, p);
      if Unfaithful(completions, p) { return Some(VerificationFailed); }
      checkpoints := None;
      failure := None;
    }
  }

  lemma EqualIff(c: Stamps, p: Stamps)
    ensures !Differ(c, p) <==> c == p
  {
    if !Differ(c, p) {
      forall k ensures k in c <==> k in p {
        if k in c || k in p { assert k in c.Keys + p.Keys; }
      }
      forall k | k in c ensures c[k] == p[k] { assert k in c.Keys + p.Keys; }
    }
  }

  // ---- What a reversal keeps ----

  /** Once the conflict check has passed the final verification cannot fail. */
  lemma VerificationHolds(c: Stamps, p: Stamps)
    requires !Conflict(c, p)
    ensures !Unfaithful(Overwrite(c, p), p)
  {
    forall k | k in p ensures k in c { assert k in c.Keys + p.Keys; }
  }

  /** Without that check it would notice only a checkpoint whose completion is
      gone, never an overwritten acknowledgement. */
  lemma UnfaithfulIff(c: Stamps, p: Stamps)
    ensures Unfaithful(Overwrite(c, p), p) <==> exists k :: k in p && k !in c
    ensures !Unfaithful(c, p) <==> forall k :: k in p ==> k in c && c[k] == p[k]
  {
  }

  /** A reversal that is not refused keeps every acknowledgement of either side
      and every row without a checkpoint. */
  lemma ReversalKeeps(c: Stamps, p: Stamps)
    requires !Conflict(c, p)
    ensures var r := Overwrite(c, p);
            && r.Keys == c.Keys
            && (forall k :: k in c && c[k].Some? ==> r[k] == c[k])
            && (forall k :: k in p ==> k in r && r[k] == p[k])
            && (forall k :: k in c && k !in p ==> r[k] == c[k] == None)
  {
    forall k | k in c.Keys + p.Keys ensures k in c && (c[k].Some? ==> k in p && c[k] == p[k]) {
    }
  }

  // ---- The service in between ----

  datatype Push = Synced | Failed | InvariantError

  /** `push_completion` up to its commit. */
  function AfterPush(c: Stamps, p: Stamps, k: Key, completed: bool, delivered: bool, now: Time): (Stamps, Push)
    requires k in c
  {
    if k !in p && c[k].Some? then (p, InvariantError)
    else
      var locked := if k in p then p else p[k := None];
      if completed && locked[k].Some? then (locked, Synced)
      else if !delivered then (locked, Failed)
      else (if completed then locked[k := Some(now)] else locked, Synced)
  }

  datatype Step =
    | PushOne(key: Key, completed: bool, delivered: bool, now: Time)
    | Complete(key: Key)     // a new completion row, not acknowledged
    | Delete(key: Key)       // cascades to its checkpoint

  function Next(c: Stamps, p: Stamps, step: Step): (Stamps, Stamps) {
    match step
    case PushOne(k, completed, delivered, now) =>
      if k in c then (c, AfterPush(c, p, k, completed, delivered, now).0) else (c, p)
    case Complete(k) => if k in c then (c, p) else (c[k := None], p)
    case Delete(k) => (c - {k}, p - {k})
  }

  function Run(c: Stamps, p: Stamps, steps: seq<Step>): (Stamps, Stamps) {
    if steps == [] then (c, p)
    else
      var (c1, p1) := Run(c, p, steps[..|steps| - 1]);
      Next(c1, p1, steps[|steps| - 1])
  }

  lemma NextKeepsCompatible(c: Stamps, p: Stamps, step: Step)
    requires !Conflict(c, p)
    ensures !Conflict(Next(c, p, step).0, Next(c, p, step).1)
  {
    var (c1, p1) := Next(c, p, step);
    forall k | k in c1.Keys + p1.Keys ensures k in c1 && (c1[k].Some? ==> k in p1 && c1[k] == p1[k]) {
      if k in c.Keys + p.Keys {
        assert k in c && (c[k].Some? ==> k in p && c[k] == p[k]);
      }
    }
  }

  /** After an upgrade, whatever the service then does, the reversal is accepted,
      and the completions end with exactly the checkpoints' times. */
  lemma {:induction false} ReversalIsAccepted(c: Stamps, steps: seq<Step>)
    ensures var (c1, p1) := Run(c, c, steps); !Conflict(c1, p1)
  {
    if steps == [] {
    } else {
      ReversalIsAccepted(c, steps[..|steps| - 1]);
      var (c1, p1) := Run(c, c, steps[..|steps| - 1]);
      NextKeepsCompatible(c1, p1, steps[|steps| - 1]);
    }
  }

  /** An acknowledgement carried over by the upgrade is neither restamped nor
      cleared by any push, and the reversal writes it back. */
  lemma {:induction false} AcknowledgementSurvives(c: Stamps, steps: seq<Step>, k: Key)
    requires k in c && c[k].Some? && Delete(k) !in steps
    ensures var (c1, p1) := Run(c, c, steps);
            k in c1 && k in p1 && c1[k] == p1[k] == Overwrite(c1, p1)[k] == c[k]
  {
    if steps != [] {
      var init, last := steps[..|steps| - 1], steps[|steps| - 1];
      assert last in steps;
      AcknowledgementSurvives(c, init, k);
    }
  }

  /** Over a run that starts with the upgrade: whether the completion exists. */
  predicate Exists(c: Stamps, steps: seq<Step>, k: Key) {
    if steps == [] then k in c
    else
      match steps[|steps| - 1]
      case Complete(key) => key == k || Exists(c, steps[..|steps| - 1], k)
      case Delete(key) => key != k && Exists(c, steps[..|steps| - 1], k)
      case PushOne(_, _, _, _) => Exists(c, steps[..|steps| - 1], k)
  }

  /** The time ERP acknowledged it: the one carried over, else that of the first push
      of the finished course that was delivered, since the completion came to be. */
  function Acknowledged(c: Stamps, steps: seq<Step>, k: Key): Option<Time> {
    if steps == [] then if k in c then c[k] else None
    else
      var init, last := steps[..|steps| - 1], steps[|steps| - 1];
      if last == Delete(k) then None
      else if last.PushOne? && last.key == k && last.completed && last.delivered
              && Exists(c, init, k) && Acknowledged(c, init, k).None?
      then Some(last.now)
      else Acknowledged(c, init, k)
  }

  /** Over every run after the upgrade a checkpoint holds exactly that time. */
  lemma {:induction false} CheckpointIsFirstDelivery(c: Stamps, steps: seq<Step>, k: Key)
    ensures var (c1, p1) := Run(c, c, steps);
            && (k in c1 <==> Exists(c, steps, k))
            && (k in p1 ==> k in c1)
            && (if k in p1 then p1[k] else None) == Acknowledged(c, steps, k)
  {
    if steps != [] {
      var init := steps[..|steps| - 1];
      CheckpointIsFirstDelivery(c, init, k);
      ReversalIsAccepted(c, init);
      var (c1, p1) := Run(c, c, init);
      assert k in c1.Keys + p1.Keys && k in c1 && k !in p1 ==> c1[k].None?;
    }
  }

  /** What a push answers: it is done when ERP has the finished course already or
      takes the event now; and after an upgrade it never meets a broken history. */
  lemma PushAnswers(c: Stamps, steps: seq<Step>, k: Key, completed: bool, delivered: bool, now: Time)
    requires k in Run(c, c, steps).0
    ensures var (c1, p1) := Run(c, c, steps);
            AfterPush(c1, p1, k, completed, delivered, now).1 ==
            if delivered || (completed && Acknowledged(c, steps, k).Some?) then Synced else Failed
  {
    var (c1, p1) := Run(c, c, steps);
    CheckpointIsFirstDelivery(c, steps, k);
    ReversalIsAccepted(c, steps);
    assert k in c1.Keys + p1.Keys;
  }

  /** With nothing in between the two migrations cancel out. */
  method RoundTrip(db: Database)
    requires db.checkpoints.None?
    modifies db
    ensures db.completions == old(db.completions) && db.checkpoints == None
  {
    var up := db.Upgrade();
    var down := db.Downgrade();
    assert down.None? by {
      assert !Conflict(old(db.completions), old(db.completions));
    }
    assert Overwrite(old(db.completions), old(db.completions)) == old(db.completions);
  }
}
