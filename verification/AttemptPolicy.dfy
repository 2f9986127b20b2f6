/** How many attempts a learner has, whether they are spent, and when the
    answer key may be shown. */
module AttemptPolicy {
  import opened Options
  import opened AttemptTables

  datatype Entitlement = Entitlement(used: int, granted: int, limit: Option<int>) {
    function Remaining(): Option<int> {
      if limit.None? then None
      else if limit.value - used > 0 then Some(limit.value - used) else Some(0)
    }

    predicate IsExhausted() {
      limit.Some? && used >= limit.value
    }
  }

  function EntitlementFor(maxAttempts: Option<int>, used: int, granted: int): Entitlement {
    Entitlement(used, granted, if maxAttempts.None? then None else Some(maxAttempts.value + granted))
  }

  predicate Exhausted(maxAttempts: Option<int>, used: int, granted: int) {
    EntitlementFor(maxAttempts, used, granted).IsExhausted()
  }

  /** What the dashboard counts down agrees with what the submit path refuses. */
  lemma NoneRemainingIffRefused(maxAttempts: Option<int>, used: int, granted: int)
    ensures Exhausted(maxAttempts, used, granted) <==> EntitlementFor(maxAttempts, used, granted).Remaining() == Some(0)
    ensures EntitlementFor(maxAttempts, used, granted).Remaining() == None <==> maxAttempts == None
  {
  }

  // ---- Grouped grant totals ----

  function Lookup(totals: map<Id, nat>, activity: Id): nat {
    if activity in totals then totals[activity] else 0
  }

  lemma GrantedStep(rows: seq<Grant>, i: nat, key: Key)
    requires i < |rows|
    ensures Granted(rows[..i + 1], key) == Granted(rows[..i], key) + if rows[i].key == key then rows[i].extra else 0
  {
    assert rows[..i + 1][..i] == rows[..i];
  }

  /** `granted_by_activity`: one grouped query instead of one per activity. Every
      activity's total is the one the refusal path reads for it alone. */
  method GrantedByActivity(rows: seq<Grant>, person: Id) returns (totals: map<Id, nat>)
    ensures forall activity :: Lookup(totals, activity) == Granted(rows, Key(person, activity))
    ensures forall activity :: activity in totals <==>
              exists i :: 0 <= i < |rows| && rows[i].key == Key(person, activity)
  {
    totals := map[];
    for i := 0 to |rows|
      invariant forall activity :: Lookup(totals, activity) == Granted(rows[..i], Key(person, activity))
      invariant forall activity :: activity in totals <==>
                exists j :: 0 <= j < i && rows[j].key == Key(person, activity)
    {
      ghost var before := totals;
      var g := rows[i];
      if g.key.person == person {
        totals := totals[g.key.activity := Lookup(totals, g.key.activity) + g.extra];
        assert g.key == Key(person, g.key.activity);
      }
      forall activity ensures Lookup(totals, activity) == Granted(rows[..i + 1], Key(person, activity)) {
        GrantedStep(rows, i, Key(person, activity));
      }
    }
    assert rows[..|rows|] == rows;
  }

  // ---- The answer key ----

  datatype Mode = Practice | Graded | Exam

  /** `reveal_feedback`. */
  predicate Reveal(mode: Mode, maxAttempts: Option<int>, passed: bool, used: int, granted: int) {
    match mode
    case Practice => true
    case Exam => false
    case Graded => passed || Exhausted(maxAttempts, used, granted)
  }

  /** Practice always shows the key and an exam never does; a graded activity shows
      it to who has passed or has used up the limit and what was granted on top. */
  lemma RevealByMode(maxAttempts: Option<int>, passed: bool, used: int, granted: int)
    ensures Reveal(Practice, maxAttempts, passed, used, granted)
    ensures !Reveal(Exam, maxAttempts, passed, used, granted)
    ensures Reveal(Graded, maxAttempts, passed, used, granted) <==>
            passed || (maxAttempts.Some? && used >= maxAttempts.value + granted)
  {
  }

  /** On a graded activity with `held` grants recorded: the key is shown to a
      learner who has not passed while a submission would still be admitted. */
  predicate Leaks(maxAttempts: int, used: int, held: int, told: int) {
    Reveal(Graded, Some(maxAttempts), false, used, told) && !Exhausted(Some(maxAttempts), used, held)
  }

  /** A caller that reports `told` grants never leaks the key, whatever has been
      used, exactly when it reports at least the grants recorded. */
  lemma SafeCallers(maxAttempts: int, held: int, told: int)
    ensures (forall used :: !Leaks(maxAttempts, used, held, told)) <==> told >= held
  {
    if told < held {
      assert Leaks(maxAttempts, maxAttempts + told, held, told);
    }
  }

  /** The submit page and the to-do list leave the grants out (they report none):
      they show the key early exactly in the granted attempts that are left. */
  lemma UnreportedGrantsLeak(maxAttempts: int, used: int, held: int)
    ensures Leaks(maxAttempts, used, held, 0) <==> maxAttempts <= used < maxAttempts + held
    ensures Leaks(1, 2, 2, 0)
  {
  }
}
