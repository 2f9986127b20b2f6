/** The score of record: best-of selection over every graded attempt. */
module BestScores {
  import opened Options

  type Id = nat

  /** `created` is created_at; `override` is source == "override". */
  datatype Score = Score(fraction: real, passed: bool, override: bool, created: int, serial: nat)

  /** One row of the activities/submissions/scores join, in query order. */
  datatype Row = Row(person: Id, course: Id, activity: Id, score: Score)

  /** `_rank(a) > _rank(b)`: fraction, then passed, then override, then recency. */
  predicate Outranks(a: Score, b: Score) {
    if a.fraction != b.fraction then a.fraction > b.fraction
    else if a.passed != b.passed then a.passed
    else if a.override != b.override then a.override
    else a.created > b.created
  }

  function Take(best: map<Id, Score>, r: Row): map<Id, Score> {
    if r.activity !in best || Outranks(r.score, best[r.activity]) then best[r.activity := r.score] else best
  }

  function BestMap(rows: seq<Row>): map<Id, Score> {
    if rows == [] then map[] else Take(BestMap(rows[..|rows| - 1]), rows[|rows| - 1])
  }

  predicate Wanted(r: Row, person: Id, courses: Option<set<Id>>) {
    r.person == person && (courses.Some? ==> r.course in courses.value)
  }

  /** The query's WHERE clause; the join order is kept. */
  function Query(rows: seq<Row>, person: Id, courses: Option<set<Id>>): seq<Row> {
    if rows == [] then []
    else
      var before := Query(rows[..|rows| - 1], person, courses);
      if Wanted(rows[|rows| - 1], person, courses) then before + [rows[|rows| - 1]] else before
  }

  function ByCourse(rows: seq<Row>): map<Id, map<Id, Score>> {
    if rows == [] then map[]
    else
      var before := ByCourse(rows[..|rows| - 1]);
      var r := rows[|rows| - 1];
      before[r.course := Take(if r.course in before then before[r.course] else map[], r)]
  }

  // ---- The three readers ----

  method BestScoresFor(rows: seq<Row>, person: Id, course: Id) returns (best: map<Id, Score>)
    ensures best == BestMap(Query(rows, person, Some({course})))
  {
    var q := Query(rows, person, Some({course}));
    best := map[];
    for i := 0 to |q|
      invariant best == BestMap(q[..i])
    {
      assert q[..i + 1][..i] == q[..i];
      if q[i].activity !in best || Outranks(q[i].score, best[q[i].activity]) {
        best := best[q[i].activity := q[i].score];
      }
    }
    assert q[..|q|] == q;
  }

  method BestScoresForPerson(rows: seq<Row>, person: Id, courses: Option<set<Id>>) returns (best: map<Id, Score>)
    ensures best == BestMap(Query(rows, person, courses))
  {
    best := map[];
    if courses.Some? && courses.value == {} {
      NoCourseNoRows(rows, person);
      return;
    }
    var q := Query(rows, person, courses);
    for i := 0 to |q|
      invariant best == BestMap(q[..i])
    {
      assert q[..i + 1][..i] == q[..i];
      if q[i].activity !in best || Outranks(q[i].score, best[q[i].activity]) {
        best := best[q[i].activity := q[i].score];
      }
    }
    assert q[..|q|] == q;
  }

  method BestScoresByCourse(rows: seq<Row>, person: Id, courses: Option<set<Id>>)
    returns (out: map<Id, map<Id, Score>>)
    ensures out == ByCourse(Query(rows, person, courses))
  {
    out := map[];
    if courses.Some? && courses.value == {} {
      NoCourseNoRows(rows, person);
      return;
    }
    var q := Query(rows, person, courses);
    for i := 0 to |q|
      invariant out == ByCourse(q[..i])
    {
      assert q[..i + 1][..i] == q[..i];
      var perCourse := if q[i].course in out then out[q[i].course] else map[];
      if q[i].activity !in perCourse || Outranks(q[i].score, perCourse[q[i].activity]) {
        perCourse := perCourse[q[i].activity := q[i].score];
      }
      out := out[q[i].course := perCourse];
    }
    assert q[..|q|] == q;
  }

  lemma {:induction false} NoCourseNoRows(rows: seq<Row>, person: Id)
    ensures Query(rows, person, Some({})) == []
  {
    if rows != [] {
      NoCourseNoRows(rows[..|rows| - 1], person);
    }
  }

  // ---- What the fold computes ----

  /** Row i holds the best score of its activity: it outranks every earlier one
      and no later one outranks it. */
  predicate IsBest(rows: seq<Row>, i: nat)
    requires i < |rows|
  {
    && (forall j :: 0 <= j < i && rows[j].activity == rows[i].activity ==> Outranks(rows[i].score, rows[j].score))
    && (forall j :: i < j < |rows| && rows[j].activity == rows[i].activity ==> !Outranks(rows[j].score, rows[i].score))
  }

  function RowsOf(rows: seq<Row>, activity: Id): seq<Row> {
    if rows == [] then []
    else
      var before := RowsOf(rows[..|rows| - 1], activity);
      if rows[|rows| - 1].activity == activity then before + [rows[|rows| - 1]] else before
  }

  lemma BestMapAppend(q: seq<Row>, r: Row)
    ensures BestMap(q + [r]) == Take(BestMap(q), r)
    ensures ByCourse(q + [r]) ==
            ByCourse(q)[r.course := Take(if r.course in ByCourse(q) then ByCourse(q)[r.course] else map[], r)]
    ensures forall a :: RowsOf(q + [r], a) == if r.activity == a then RowsOf(q, a) + [r] else RowsOf(q, a)
  {
    assert (q + [r])[..|q|] == q;
  }

  predicate HoldsBest(rows: seq<Row>, i: nat, activity: Id) {
    && i < |rows| && rows[i].activity == activity && IsBest(rows, i)
    && activity in BestMap(rows) && rows[i].score == BestMap(rows)[activity]
  }

  lemma StillBest(rows: seq<Row>, r: Row, i: nat, activity: Id)
    requires HoldsBest(rows, i, activity)
    requires activity != r.activity || !Outranks(r.score, BestMap(rows)[activity])
    ensures HoldsBest(rows + [r], i, activity)
  {
    BestMapAppend(rows, r);
  }

  lemma NowBest(rows: seq<Row>, r: Row, i: nat)
    requires r.activity in BestMap(rows) ==>
               HoldsBest(rows, i, r.activity) && Outranks(r.score, BestMap(rows)[r.activity])
    requires r.activity !in BestMap(rows) ==> forall j :: 0 <= j < |rows| ==> rows[j].activity != r.activity
    ensures HoldsBest(rows + [r], |rows|, r.activity)
  {
    BestMapAppend(rows, r);
    var all := rows + [r];
    forall j | 0 <= j < |rows| && all[j].activity == r.activity ensures Outranks(r.score, all[j].score) {
      assert all[j] == rows[j];
      assert j == i || Outranks(rows[i].score, rows[j].score) || !Outranks(rows[j].score, rows[i].score);
    }
  }

  /** The reported score is the maximum under the rank, the earliest one on ties;
      an activity is reported exactly when it has a score. */
  lemma {:induction false} BestMapIsMaximum(rows: seq<Row>)
    ensures forall a :: a in BestMap(rows) <==> exists i :: 0 <= i < |rows| && rows[i].activity == a
    ensures forall a :: a in BestMap(rows) ==> exists i: nat :: HoldsBest(rows, i, a)
  {
    if rows != [] {
      var n := |rows| - 1;
      var before, r := rows[..n], rows[n];
      BestMapIsMaximum(before);
      BestMapAppend(before, r);
      assert rows == before + [r];
      forall a | a in BestMap(rows) ensures exists i: nat :: HoldsBest(rows, i, a) {
        if a in BestMap(before) && (a != r.activity || !Outranks(r.score, BestMap(before)[a])) {
          var i: nat :| HoldsBest(before, i, a);
          StillBest(before, r, i, a);
        } else {
          var i: nat :| a in BestMap(before) ==> HoldsBest(before, i, a);
          NowBest(before, r, i);
        }
      }
      forall a ensures a in BestMap(rows) <==> exists i :: 0 <= i < |rows| && rows[i].activity == a {
        if i :| 0 <= i < |rows| && rows[i].activity == a {
          assert i < n ==> before[i].activity == a;
        }
        if a in BestMap(before) {
          var i :| 0 <= i < |before| && before[i].activity == a;
          assert rows[i].activity == a;
        }
      }
    }
  }

  lemma BestHolder(rows: seq<Row>, a: Id) returns (i: nat)
    requires a in BestMap(rows)
    ensures HoldsBest(rows, i, a)
  {
    BestMapIsMaximum(rows);
    i :| HoldsBest(rows, i, a);
  }

  // ---- The score of record ----

  /** A graded attempt of the person on the activity, in one of the courses. */
  predicate Attempted(rows: seq<Row>, i: nat, person: Id, courses: Option<set<Id>>, activity: Id) {
    && i < |rows| && rows[i].person == person && rows[i].activity == activity
    && (courses.Some? ==> rows[i].course in courses.value)
  }

  /** The query keeps the rows it wants, in their order: row i comes after the
      wanted rows before it. */
  lemma {:induction false} QueryKeeps(rows: seq<Row>, i: nat, person: Id, courses: Option<set<Id>>)
    requires i < |rows| && Wanted(rows[i], person, courses)
    ensures |Query(rows[..i], person, courses)| < |Query(rows, person, courses)|
    ensures Query(rows, person, courses)[|Query(rows[..i], person, courses)|] == rows[i]
    decreases |rows|
  {
    var n := |rows| - 1;
    if i < n {
      assert rows[..n][..i] == rows[..i];
      QueryKeeps(rows[..n], i, person, courses);
    }
  }

  lemma QueryKeepsOrder(rows: seq<Row>, i: nat, j: nat, person: Id, courses: Option<set<Id>>)
    requires i < j < |rows| && Wanted(rows[i], person, courses)
    ensures |Query(rows[..i], person, courses)| < |Query(rows[..j], person, courses)|
  {
    QueryKeeps(rows[..j], i, person, courses);
    assert rows[..j][..i] == rows[..i];
  }

  lemma {:induction false} QueryOrigin(rows: seq<Row>, j: nat, person: Id, courses: Option<set<Id>>) returns (i: nat)
    requires j < |Query(rows, person, courses)|
    ensures i < |rows| && Wanted(rows[i], person, courses)
    ensures rows[i] == Query(rows, person, courses)[j] && j == |Query(rows[..i], person, courses)|
    decreases |rows|
  {
    var n := |rows| - 1;
    if j < |Query(rows[..n], person, courses)| {
      i := QueryOrigin(rows[..n], j, person, courses);
      assert rows[..n][..i] == rows[..i];
    } else {
      i := n;
    }
  }

  predicate NotAbove(x: Score, best: Score) {
    && x.fraction <= best.fraction
    && (x.fraction == best.fraction && x.passed ==> best.passed)
    && (x.fraction == best.fraction && x.passed == best.passed && x.override ==> best.override)
    && (x.fraction == best.fraction && x.passed == best.passed && x.override == best.override ==>
          x.created <= best.created)
  }

  lemma BestOfAttempt(rows: seq<Row>, i: nat)
    requires i < |rows|
    ensures rows[i].activity in BestMap(rows)
    ensures NotAbove(rows[i].score, BestMap(rows)[rows[i].activity])
  {
    BestMapIsMaximum(rows);
    var b := BestHolder(rows, rows[i].activity);
    assert i == b || Outranks(rows[b].score, rows[i].score) || !Outranks(rows[i].score, rows[b].score);
  }

  /** The first of the person's attempts that no other beats: its score is reported. */
  predicate Leading(rows: seq<Row>, i: nat, person: Id, courses: Option<set<Id>>, activity: Id, best: Score) {
    && Attempted(rows, i, person, courses, activity) && rows[i].score == best
    && forall j :: 0 <= j < i && Attempted(rows, j, person, courses, activity) ==> !NotAbove(best, rows[j].score)
  }

  lemma ReportedLeads(rows: seq<Row>, person: Id, courses: Option<set<Id>>, activity: Id) returns (i: nat)
    requires activity in BestMap(Query(rows, person, courses))
    ensures Leading(rows, i, person, courses, activity, BestMap(Query(rows, person, courses))[activity])
  {
    var q := Query(rows, person, courses);
    var b := BestHolder(q, activity);
    i := QueryOrigin(rows, b, person, courses);
    forall j | 0 <= j < i && Attempted(rows, j, person, courses, activity)
      ensures !NotAbove(rows[i].score, rows[j].score)
    {
      QueryKeeps(rows, j, person, courses);
      QueryKeepsOrder(rows, j, i, person, courses);
      var at := |Query(rows[..j], person, courses)|;
      assert Outranks(q[b].score, q[at].score);
    }
  }

  /** What a reader reports for an activity: nothing without an attempt of that
      person in those courses; otherwise one of those attempts, of the highest
      fraction, among these passed if any is, among these an override if there is
      one, among these the latest, and of equal ones the first read. */
  lemma ReportsScoreOfRecord(rows: seq<Row>, person: Id, courses: Option<set<Id>>, activity: Id)
    ensures var best := BestMap(Query(rows, person, courses));
            && (activity in best <==> exists i: nat :: Attempted(rows, i, person, courses, activity))
            && (activity in best ==>
                  && (exists i: nat :: Leading(rows, i, person, courses, activity, best[activity]))
                  && forall i: nat :: Attempted(rows, i, person, courses, activity) ==>
                       && rows[i].score.fraction <= best[activity].fraction
                       && (rows[i].score.fraction == best[activity].fraction ==>
                             && (rows[i].score.passed ==> best[activity].passed)
                             && (rows[i].score.passed == best[activity].passed ==>
                                   && (rows[i].score.override ==> best[activity].override)
                                   && (rows[i].score.override == best[activity].override ==>
                                         rows[i].score.created <= best[activity].created))))
  {
    var q := Query(rows, person, courses);
    if activity in BestMap(q) {
      var i := ReportedLeads(rows, person, courses, activity);
    }
    forall i: nat | Attempted(rows, i, person, courses, activity)
      ensures activity in BestMap(q)
      ensures NotAbove(rows[i].score, BestMap(q)[activity])
    {
      QueryKeeps(rows, i, person, courses);
      BestOfAttempt(q, |Query(rows[..i], person, courses)|);
    }
  }

  // ---- The three forms agree ----

  /** An activity belongs to one course. */
  ghost predicate OneCoursePerActivity(rows: seq<Row>) {
    forall i, j :: 0 <= i < |rows| && 0 <= j < |rows| && rows[i].activity == rows[j].activity ==>
      rows[i].course == rows[j].course
  }

  /** An activity's best score depends only on that activity's rows. */
  lemma {:induction false} OwnRowsDecide(rows: seq<Row>, a: Id)
    ensures a in BestMap(rows) <==> a in BestMap(RowsOf(rows, a))
    ensures a in BestMap(rows) ==> BestMap(rows)[a] == BestMap(RowsOf(rows, a))[a]
  {
    if rows != [] {
      OwnRowsDecide(rows[..|rows| - 1], a);
      BestMapAppend(RowsOf(rows[..|rows| - 1], a), rows[|rows| - 1]);
    }
  }

  lemma {:induction false} SameOwnRows(rows: seq<Row>, person: Id, courses: Option<set<Id>>, course: Id, a: Id)
    requires courses.Some? ==> course in courses.value
    requires forall i :: 0 <= i < |rows| && rows[i].activity == a ==> rows[i].course == course
    ensures RowsOf(Query(rows, person, courses), a) == RowsOf(Query(rows, person, Some({course})), a)
  {
    if rows != [] {
      var n := |rows| - 1;
      SameOwnRows(rows[..n], person, courses, course, a);
      BestMapAppend(Query(rows[..n], person, courses), rows[n]);
      BestMapAppend(Query(rows[..n], person, Some({course})), rows[n]);
    }
  }

  /** The group of one course is the best map of that course's rows. */
  ghost predicate Groups(all: seq<Row>, own: seq<Row>, course: Id) {
    && (course in ByCourse(all) <==> BestMap(own) != map[])
    && (course in ByCourse(all) ==> ByCourse(all)[course] == BestMap(own))
  }

  lemma GroupsOwn(all: seq<Row>, own: seq<Row>, r: Row)
    requires Groups(all, own, r.course)
    ensures Groups(all + [r], own + [r], r.course)
  {
    BestMapAppend(all, r);
    BestMapAppend(own, r);
    assert r.activity in Take(BestMap(own), r);
  }

  lemma GroupsOther(all: seq<Row>, own: seq<Row>, r: Row, course: Id)
    requires Groups(all, own, course) && r.course != course
    ensures Groups(all + [r], own, course)
  {
    BestMapAppend(all, r);
  }

  lemma {:induction false} GroupIsCourse(rows: seq<Row>, person: Id, courses: Option<set<Id>>, course: Id)
    requires courses.Some? ==> course in courses.value
    ensures Groups(Query(rows, person, courses), Query(rows, person, Some({course})), course)
  {
    if rows != [] {
      var init, r := rows[..|rows| - 1], rows[|rows| - 1];
      GroupIsCourse(init, person, courses, course);
      if Wanted(r, person, Some({course})) {
        GroupsOwn(Query(init, person, courses), Query(init, person, Some({course})), r);
      } else if Wanted(r, person, courses) {
        GroupsOther(Query(init, person, courses), Query(init, person, Some({course})), r, course);
      }
    }
  }

  /** For every score history: the per-course reader, the per-person reader and
      the grouped reader report the same best score for every activity. */
  lemma ThreeFormsAgree(rows: seq<Row>, person: Id, courses: Option<set<Id>>, course: Id)
    requires OneCoursePerActivity(rows) && (courses.Some? ==> course in courses.value)
    ensures var one := BestMap(Query(rows, person, Some({course})));
            var all := BestMap(Query(rows, person, courses));
            var grouped := ByCourse(Query(rows, person, courses));
            && (course in grouped <==> one != map[])
            && (course in grouped ==> grouped[course] == one)
            && (forall i :: 0 <= i < |rows| && rows[i].course == course ==>
                  && (rows[i].activity in one <==> rows[i].activity in all)
                  && (rows[i].activity in one ==> all[rows[i].activity] == one[rows[i].activity]))
  {
    GroupIsCourse(rows, person, courses, course);
    forall i | 0 <= i < |rows| && rows[i].course == course
      ensures var one := BestMap(Query(rows, person, Some({course})));
              var all := BestMap(Query(rows, person, courses));
              && (rows[i].activity in one <==> rows[i].activity in all)
              && (rows[i].activity in one ==> all[rows[i].activity] == one[rows[i].activity])
    {
      var a := rows[i].activity;
      SameOwnRows(rows, person, courses, course, a);
      OwnRowsDecide(Query(rows, person, courses), a);
      OwnRowsDecide(Query(rows, person, Some({course})), a);
    }
  }

  // ---- A pass is kept ----

  /** How `grade_submission` and `override_score` both fill a score. */
  predicate GradedFrom(s: Score, points: real, max: real, threshold: real) {
    && max >= 0.0
    && s.fraction == (if max != 0.0 then points / max else 0.0)
    && s.passed == (max > 0.0 && s.fraction >= threshold)
  }

  ghost predicate GradedAt(s: Score, threshold: real) {
    exists points, max :: GradedFrom(s, points, max, threshold)
  }

  /** Every score was graded at this threshold with a non-negative maximum. */
  ghost predicate Graded(rows: seq<Row>, threshold: real) {
    forall i :: 0 <= i < |rows| ==> GradedAt(rows[i].score, threshold)
  }

  predicate Passed(rows: seq<Row>, activity: Id) {
    activity in BestMap(rows) && BestMap(rows)[activity].passed
  }

  /** The activity counts as passed exactly when some attempt passed. */
  lemma PassedIffSomePass(rows: seq<Row>, activity: Id, threshold: real)
    requires threshold >= 0.0 && Graded(rows, threshold)
    ensures Passed(rows, activity) <==>
            exists i :: 0 <= i < |rows| && rows[i].activity == activity && rows[i].score.passed
  {
    BestMapIsMaximum(rows);
    if activity in BestMap(rows) {
      var b: nat :| HoldsBest(rows, b, activity);
      if i :| 0 <= i < |rows| && rows[i].activity == activity && rows[i].score.passed {
        assert i == b || Outranks(rows[b].score, rows[i].score) || !Outranks(rows[i].score, rows[b].score);
        assert GradedAt(rows[b].score, threshold) && GradedAt(rows[i].score, threshold);
        var points, max :| GradedFrom(rows[b].score, points, max, threshold);
        var points', max' :| GradedFrom(rows[i].score, points', max', threshold);
      }
    }
  }

  ghost predicate PassIsKept(before: seq<Row>, r: Row, after: seq<Row>) {
    Passed(before + after, r.activity) ==> Passed(before + [r] + after, r.activity)
  }

  lemma KeptAtNonNegative(before: seq<Row>, r: Row, after: seq<Row>, threshold: real)
    requires threshold >= 0.0 && Graded(before + [r] + after, threshold)
    ensures PassIsKept(before, r, after)
  {
    var old', new' := before + after, before + [r] + after;
    forall i | 0 <= i < |old'|
      ensures GradedAt(old'[i].score, threshold) && old'[i] in new'
    {
      var k := if i < |before| then i else i + 1;
      assert new'[k] == old'[i];
    }
    PassedIffSomePass(old', r.activity, threshold);
    PassedIffSomePass(new', r.activity, threshold);
    if i :| 0 <= i < |old'| && old'[i].activity == r.activity && old'[i].score.passed {
      var k :| 0 <= k < |new'| && new'[k] == old'[i];
    }
  }

  /** Below zero a passing negative score loses to an empty 0/0 attempt. */
  lemma LostBelowZero(threshold: real)
    requires threshold < 0.0
    ensures exists before, r, after :: Graded(before + [r] + after, threshold) && !PassIsKept(before, r, after)
  {
    var pass := Row(0, 0, 0, Score(threshold, true, false, 0, 0));
    var blank := Row(0, 0, 0, Score(0.0, false, false, 1, 1));
    var all := [pass] + [blank] + [];
    assert GradedFrom(pass.score, threshold, 1.0, threshold);
    assert GradedFrom(blank.score, 0.0, 0.0, threshold);
    assert all == [pass, blank] && [pass] + [] == [pass];
    BestMapAppend([], pass);
    BestMapAppend([pass], blank);
    assert [] + [pass] == [pass] && [pass] + [blank] == all;
    assert !PassIsKept([pass], blank, []);
  }

  /** Adding a score (at any place in the history) never turns a passed activity
      into a failed one, for all histories at a fixed threshold, exactly when
      the threshold is not negative. */
  lemma PassIsSticky(threshold: real)
    ensures (forall before, r, after :: Graded(before + [r] + after, threshold) ==> PassIsKept(before, r, after))
            <==> threshold >= 0.0
  {
    if threshold >= 0.0 {
      forall before, r, after | Graded(before + [r] + after, threshold) ensures PassIsKept(before, r, after) {
        KeptAtNonNegative(before, r, after, threshold);
      }
    } else {
      LostBelowZero(threshold);
    }
  }
}
