/** `recompute-entrance-levels`: band every valid sitting by the quartiles of
    the cohort's own scores. */
module PercentileBands {
  import opened Options

  type Id = nat
  datatype Band = Beginner | Intermediate | Advanced

  datatype Sitting = Sitting(
    cohort: Option<Id>,
    score: Option<real>,
    valid: Option<bool>,
    level: Option<Band>,
    version: Option<nat>,
    synced: Option<int>)

  datatype Outcome = TooFew | NoScores | DryRun(p25: real, p75: real) | Rebanded(changed: nat)

  predicate Selected(a: Sitting, cohort: Option<Id>) {
    a.score.Some? && a.valid != Some(false) && (cohort.Some? ==> a.cohort == cohort)
  }

  function ScoreOf(a: Sitting, cohort: Option<Id>): seq<real> {
    if Selected(a, cohort) then [a.score.value] else []
  }

  function Scores(s: seq<Sitting>, cohort: Option<Id>): seq<real> {
    if s == [] then [] else Scores(s[..|s| - 1], cohort) + ScoreOf(s[|s| - 1], cohort)
  }

  // ---- Sorting ----

  predicate Sorted(s: seq<real>) { forall i, j :: 0 <= i < j < |s| ==> s[i] <= s[j] }

  lemma LastApart(s: seq<real>)
    requires s != []
    ensures multiset(s) == multiset(s[..|s| - 1]) + multiset{s[|s| - 1]}
  {
    assert s == s[..|s| - 1] + [s[|s| - 1]];
  }

  lemma SortedSnoc(s: seq<real>, x: real)
    requires Sorted(s) && (s != [] ==> s[|s| - 1] <= x)
    ensures Sorted(s + [x])
  {
  }

  function Insert(s: seq<real>, x: real): (r: seq<real>)
    requires Sorted(s)
    ensures Sorted(r) && multiset(r) == multiset(s) + multiset{x}
    ensures r != [] && r[|r| - 1] == if s == [] || s[|s| - 1] <= x then x else s[|s| - 1]
  {
    if s == [] || s[|s| - 1] <= x then
      SortedSnoc(s, x);
      s + [x]
    else
      var r := Insert(s[..|s| - 1], x);
      LastApart(s);
      SortedSnoc(r, s[|s| - 1]);
      r + [s[|s| - 1]]
  }

  function Sort(s: seq<real>): (r: seq<real>)
    ensures Sorted(r) && multiset(r) == multiset(s) && |r| == |s|
  {
    if s == [] then []
    else
      LastApart(s);
      var r := Insert(Sort(s[..|s| - 1]), s[|s| - 1]);
      assert |multiset(r)| == |r|;
      r
  }

  function P25(scores: seq<real>): real
    requires scores != []
  {
    Sort(scores)[(|scores| - 1) / 4]
  }

  function P75(scores: seq<real>): real
    requires scores != []
  {
    Sort(scores)[3 * (|scores| - 1) / 4]
  }

  // ---- Banding ----

  function BandOf(score: real, p25: real, p75: real): Band {
    if score <= p25 then Beginner else if score >= p75 then Advanced else Intermediate
  }

  function Relevel(a: Sitting, cohort: Option<Id>, p25: real, p75: real): Sitting {
    if !Selected(a, cohort) || a.level == Some(BandOf(a.score.value, p25, p75)) then a
    else a.(level := Some(BandOf(a.score.value, p25, p75)),
            version := Some(1 + if a.version.Some? then a.version.value else 0),
            synced := None)
  }

  function RelevelAll(s: seq<Sitting>, cohort: Option<Id>, p25: real, p75: real): (r: seq<Sitting>)
    ensures |r| == |s| && forall i :: 0 <= i < |s| ==> r[i] == Relevel(s[i], cohort, p25, p75)
  {
    seq(|s|, i requires 0 <= i < |s| => Relevel(s[i], cohort, p25, p75))
  }

  /** The command's effect on the table. */
  function Recompute(s: seq<Sitting>, cohort: Option<Id>, minCohort: int, dryRun: bool): seq<Sitting> {
    var scores := Scores(s, cohort);
    if |scores| < minCohort || scores == [] || dryRun then s
    else RelevelAll(s, cohort, P25(scores), P75(scores))
  }

  function Differences(s: seq<Sitting>, t: seq<Sitting>): nat
    requires |s| == |t|
  {
    if s == [] then 0
    else Differences(s[..|s| - 1], t[..|t| - 1]) + if s[|s| - 1] != t[|t| - 1] then 1 else 0
  }

  method CollectScores(table: array<Sitting>, cohort: Option<Id>) returns (scores: seq<real>)
    ensures scores == Scores(table[..], cohort)
  {
    scores := [];
    var i := 0;
    while i < table.Length
      invariant i <= table.Length
      invariant scores == Scores(table[..i], cohort)
    {
      assert table[..i + 1][..i] == table[..i];
      if Selected(table[i], cohort) {
        scores := scores + [table[i].score.value];
      }
      i := i + 1;
    }
    assert table[..i] == table[..];
  }

  lemma DifferencesNext(s: seq<Sitting>, t: seq<Sitting>, i: nat)
    requires |s| == |t| && i < |s|
    ensures Differences(s[..i + 1], t[..i + 1]) == Differences(s[..i], t[..i]) + if s[i] != t[i] then 1 else 0
  {
    assert s[..i + 1][..i] == s[..i] && t[..i + 1][..i] == t[..i];
  }

  method Reband(table: array<Sitting>, cohort: Option<Id>, p25: real, p75: real) returns (changed: nat)
    modifies table
    ensures table[..] == RelevelAll(old(table[..]), cohort, p25, p75)
    ensures changed == Differences(old(table[..]), table[..])
  {
    ghost var was := table[..];
    changed := 0;
    var i := 0;
    while i < table.Length
      invariant i <= table.Length
      invariant forall j :: 0 <= j < i ==> table[j] == Relevel(was[j], cohort, p25, p75)
      invariant forall j :: i <= j < table.Length ==> table[j] == was[j]
      invariant changed == Differences(was[..i], table[..i])
    {
      ghost var before := table[..];
      if Selected(table[i], cohort) {
        var band := BandOf(table[i].score.value, p25, p75);
        if table[i].level != Some(band) {
          var version := if table[i].version.Some? then table[i].version.value else 0;
          table[i] := table[i].(level := Some(band), version := Some(version + 1), synced := None);
          changed := changed + 1;
        }
      }
      assert table[..i] == before[..i];
      DifferencesNext(was, table[..], i);
      assert table[..][..i + 1] == table[..i + 1];
      i := i + 1;
    }
    assert was[..i] == was && table[..i] == table[..];
  }

  /** `NoScores` is the IndexError of an empty selection that a minimum of zero
      or less lets through. */
  method RecomputeLevels(table: array<Sitting>, cohort: Option<Id>, minCohort: int, dryRun: bool) returns (out: Outcome)
    modifies table
    ensures table[..] == Recompute(old(table[..]), cohort, minCohort, dryRun)
    ensures out.TooFew? <==> |Scores(old(table[..]), cohort)| < minCohort
    ensures out.NoScores? <==> Scores(old(table[..]), cohort) == [] && minCohort <= 0
    ensures out.DryRun? <==> dryRun && !out.TooFew? && !out.NoScores?
    ensures out.DryRun? ==> out.p25 == P25(Scores(old(table[..]), cohort))
    ensures out.DryRun? ==> out.p75 == P75(Scores(old(table[..]), cohort))
    ensures out.Rebanded? ==> out.changed == Differences(old(table[..]), table[..])
  {
    var scores := CollectScores(table, cohort);
    if |scores| < minCohort { return TooFew; }
    if scores == [] { return NoScores; }
    var sorted := Sort(scores);
    var n := |sorted|;
    var p25, p75 := sorted[(n - 1) / 4], sorted[3 * (n - 1) / 4];
    if dryRun { return DryRun(p25, p75); }
    var changed := Reband(table, cohort, p25, p75);
    out := Rebanded(changed);
  }

  /** An empty table and a minimum of zero: the cut-offs are read from nothing. */
  method EmptySelectionFails() returns (out: Outcome)
    ensures out == NoScores
  {
    var table := new Sitting[0];
    out := RecomputeLevels(table, None, 0, false);
  }

  // ---- What the command does to each sitting ----

  /** A sitting that counts: scored, not marked invalid, and of the cohort asked for. */
  predicate Counts(a: Sitting, cohort: Option<Id>) {
    && a.score.Some? && (a.valid.None? || a.valid.value)
    && (cohort.Some? ==> a.cohort.Some? && a.cohort.value == cohort.value)
  }

  /** The scores that count, in table order. */
  function Counted(s: seq<Sitting>, cohort: Option<Id>): seq<real> {
    if s == [] then []
    else
      var n := |s| - 1;
      if Counts(s[n], cohort) then Counted(s[..n], cohort) + [s[n].score.value] else Counted(s[..n], cohort)
  }

  lemma {:induction false} ScoresAreCounted(s: seq<Sitting>, cohort: Option<Id>)
    ensures Scores(s, cohort) == Counted(s, cohort)
  {
    if s != [] {
      ScoresAreCounted(s[..|s| - 1], cohort);
    }
  }

  /** The scores in order. */
  predicate Ranked(scores: seq<real>, sorted: seq<real>) {
    multiset(sorted) == multiset(scores) && forall i, j :: 0 <= i < j < |sorted| ==> sorted[i] <= sorted[j]
  }

  /** The row after banding: below or at the low cut-off beginner, else at or above
      the high one advanced, else intermediate; a band that changes bumps the
      version and clears the sync, and nothing else of the row changes. */
  predicate Banded(a: Sitting, r: Sitting, cohort: Option<Id>, low: real, high: real) {
    var band := if !Counts(a, cohort) then a.level
                else if a.score.value <= low then Some(Beginner)
                else if a.score.value >= high then Some(Advanced)
                else Some(Intermediate);
    r == if band == a.level then a
         else a.(level := band, synced := None,
                 version := Some(if a.version.Some? then a.version.value + 1 else 1))
  }

  lemma RelevelBands(a: Sitting, cohort: Option<Id>, low: real, high: real)
    ensures Banded(a, Relevel(a, cohort, low, high), cohort, low, high)
  {
  }

  /** A run that is neither refused nor dry bands every row by the quarter and
      three-quarter ranks of the scores that count. */
  lemma BandsExactly(s: seq<Sitting>, cohort: Option<Id>, minCohort: int) returns (sorted: seq<real>)
    requires |Counted(s, cohort)| >= minCohort && Counted(s, cohort) != []
    ensures Ranked(Counted(s, cohort), sorted) && |sorted| == |Counted(s, cohort)|
    ensures |Recompute(s, cohort, minCohort, false)| == |s|
    ensures forall i :: 0 <= i < |s| ==>
              Banded(s[i], Recompute(s, cohort, minCohort, false)[i], cohort,
                     sorted[(|sorted| - 1) / 4], sorted[3 * (|sorted| - 1) / 4])
  {
    ScoresAreCounted(s, cohort);
    sorted := Sort(Counted(s, cohort));
    var low, high := P25(Counted(s, cohort)), P75(Counted(s, cohort));
    forall i | 0 <= i < |s| ensures Banded(s[i], RelevelAll(s, cohort, low, high)[i], cohort, low, high) {
      RelevelBands(s[i], cohort, low, high);
    }
  }

  /** A run that is refused, or a dry run, changes no sitting. */
  lemma RefusedChangesNothing(s: seq<Sitting>, cohort: Option<Id>, minCohort: int, dryRun: bool)
    requires dryRun || |Counted(s, cohort)| < minCohort || Counted(s, cohort) == []
    ensures Recompute(s, cohort, minCohort, dryRun) == s
  {
    ScoresAreCounted(s, cohort);
  }

  // ---- Order, monotonicity, idempotence ----

  function Rank(b: Band): nat {
    match b case Beginner => 0 case Intermediate => 1 case Advanced => 2
  }

  /** A higher score never gets a lower band, whatever the two cut-offs are. */
  lemma BandsAreMonotone(s: seq<Sitting>, cohort: Option<Id>, p25: real, p75: real, i: nat, j: nat)
    requires i < |s| && j < |s| && Selected(s[i], cohort) && Selected(s[j], cohort)
    requires s[i].score.value <= s[j].score.value
    ensures var r := RelevelAll(s, cohort, p25, p75);
            r[i].level.Some? && r[j].level.Some? && Rank(r[i].level.value) <= Rank(r[j].level.value)
  {
  }

  lemma SameSize<T>(a: seq<T>, b: seq<T>)
    requires multiset(a) == multiset(b)
    ensures |a| == |b|
  {
    assert |multiset(a)| == |a| && |multiset(b)| == |b|;
  }

  lemma DropLast<T>(s: seq<T>)
    requires s != []
    ensures multiset(s[..|s| - 1]) == multiset(s) - multiset{s[|s| - 1]}
  {
    assert s == s[..|s| - 1] + [s[|s| - 1]];
  }

  lemma Peel(a: seq<real>, b: seq<real>)
    requires Sorted(a) && Sorted(b) && multiset(a) == multiset(b) && a != []
    ensures b != [] && a[|a| - 1] == b[|b| - 1] && multiset(a[..|a| - 1]) == multiset(b[..|b| - 1])
  {
    SameSize(a, b);
    assert a[|a| - 1] in multiset(b) && b[|b| - 1] in multiset(a);
    DropLast(a);
    DropLast(b);
  }

  lemma {:induction false} SortedUnique(a: seq<real>, b: seq<real>)
    requires Sorted(a) && Sorted(b) && multiset(a) == multiset(b)
    ensures a == b
    decreases |a|
  {
    SameSize(a, b);
    if a != [] {
      Peel(a, b);
      SortedUnique(a[..|a| - 1], b[..|b| - 1]);
      assert forall i :: 0 <= i < |a| - 1 ==> a[i] == a[..|a| - 1][i] && b[i] == b[..|b| - 1][i];
    }
  }

  lemma BagAppend(s: seq<Sitting>, a: Sitting, cohort: Option<Id>)
    ensures multiset(Scores(s + [a], cohort)) == multiset(Scores(s, cohort)) + multiset(ScoreOf(a, cohort))
  {
    assert (s + [a])[..|s|] == s;
  }

  lemma Regroup(s: seq<Sitting>, a: Sitting, t: seq<Sitting>)
    requires t != []
    ensures s + [a] + t == (s + [a] + t[..|t| - 1]) + [t[|t| - 1]]
    ensures s + t == (s + t[..|t| - 1]) + [t[|t| - 1]]
  {
  }

  lemma {:induction false} BagWithout(s: seq<Sitting>, a: Sitting, t: seq<Sitting>, cohort: Option<Id>)
    ensures multiset(Scores(s + [a] + t, cohort)) == multiset(Scores(s + t, cohort)) + multiset(ScoreOf(a, cohort))
    decreases |t|
  {
    if t == [] {
      assert s + [a] + t == s + [a] && s + t == s;
      BagAppend(s, a, cohort);
    } else {
      var init, last := t[..|t| - 1], t[|t| - 1];
      Regroup(s, a, t);
      BagWithout(s, a, init, cohort);
      BagStep(s + [a] + init, s + init, a, last, cohort);
    }
  }

  lemma BagStep(x: seq<Sitting>, y: seq<Sitting>, a: Sitting, last: Sitting, cohort: Option<Id>)
    requires multiset(Scores(x, cohort)) == multiset(Scores(y, cohort)) + multiset(ScoreOf(a, cohort))
    ensures multiset(Scores(x + [last], cohort)) == multiset(Scores(y + [last], cohort)) + multiset(ScoreOf(a, cohort))
  {
    BagAppend(x, last, cohort);
    BagAppend(y, last, cohort);
  }

  lemma Extract(s: seq<Sitting>, t: seq<Sitting>) returns (k: nat)
    requires s != [] && multiset(s) == multiset(t)
    ensures k < |t| && t == t[..k] + [s[|s| - 1]] + t[k + 1..]
    ensures multiset(s[..|s| - 1]) == multiset(t[..k] + t[k + 1..])
  {
    var last := s[|s| - 1];
    assert last in multiset(t);
    k :| 0 <= k < |t| && t[k] == last;
    assert t == t[..k] + [last] + t[k + 1..];
    DropLast(s);
    assert multiset(t[..k] + t[k + 1..]) == multiset(t) - multiset{last};
  }

  lemma {:induction false} SameScores(s: seq<Sitting>, t: seq<Sitting>, cohort: Option<Id>)
    requires multiset(s) == multiset(t)
    ensures multiset(Scores(s, cohort)) == multiset(Scores(t, cohort))
    decreases |s|
  {
    SameSize(s, t);
    if s != [] {
      var k := Extract(s, t);
      SameScores(s[..|s| - 1], t[..k] + t[k + 1..], cohort);
      BagWithout(t[..k], s[|s| - 1], t[k + 1..], cohort);
      BagLast(s, cohort);
    }
  }

  lemma BagLast(s: seq<Sitting>, cohort: Option<Id>)
    requires s != []
    ensures multiset(Scores(s, cohort)) ==
            multiset(Scores(s[..|s| - 1], cohort)) + multiset(ScoreOf(s[|s| - 1], cohort))
  {
  }

  lemma SameQuartiles(s: seq<Sitting>, t: seq<Sitting>, cohort: Option<Id>)
    requires multiset(s) == multiset(t)
    ensures Sort(Scores(s, cohort)) == Sort(Scores(t, cohort)) && |Scores(s, cohort)| == |Scores(t, cohort)|
  {
    SameScores(s, t, cohort);
    SortedUnique(Sort(Scores(s, cohort)), Sort(Scores(t, cohort)));
  }

  /** A row's result depends on the rest of the table through its sorted scores. */
  function RowResult(a: Sitting, sorted: seq<real>, cohort: Option<Id>, minCohort: int, dryRun: bool): Sitting {
    if |sorted| < minCohort || sorted == [] || dryRun then a
    else Relevel(a, cohort, sorted[(|sorted| - 1) / 4], sorted[3 * (|sorted| - 1) / 4])
  }

  lemma RecomputeRow(s: seq<Sitting>, cohort: Option<Id>, minCohort: int, dryRun: bool, i: nat)
    requires i < |s|
    ensures |Recompute(s, cohort, minCohort, dryRun)| == |s|
    ensures Recompute(s, cohort, minCohort, dryRun)[i] ==
            RowResult(s[i], Sort(Scores(s, cohort)), cohort, minCohort, dryRun)
  {
  }

  /** Row order is irrelevant: in a reordered table a sitting gets the same
      result wherever its row is. */
  lemma OrderIsIrrelevant(s: seq<Sitting>, t: seq<Sitting>, cohort: Option<Id>, minCohort: int, dryRun: bool,
      i: nat, j: nat)
    requires multiset(s) == multiset(t)
    requires i < |s| && j < |t| && s[i] == t[j]
    ensures Recompute(s, cohort, minCohort, dryRun)[i] == Recompute(t, cohort, minCohort, dryRun)[j]
  {
    SameQuartiles(s, t, cohort);
    RecomputeRow(s, cohort, minCohort, dryRun, i);
    RecomputeRow(t, cohort, minCohort, dryRun, j);
  }

  lemma {:induction false} RelevelKeepsScores(s: seq<Sitting>, cohort: Option<Id>, p25: real, p75: real)
    ensures Scores(RelevelAll(s, cohort, p25, p75), cohort) == Scores(s, cohort)
  {
    if s != [] {
      RelevelKeepsScores(s[..|s| - 1], cohort, p25, p75);
      assert RelevelAll(s, cohort, p25, p75)[..|s| - 1] == RelevelAll(s[..|s| - 1], cohort, p25, p75);
    }
  }

  lemma RelevelTwice(s: seq<Sitting>, cohort: Option<Id>, p25: real, p75: real)
    ensures RelevelAll(RelevelAll(s, cohort, p25, p75), cohort, p25, p75) == RelevelAll(s, cohort, p25, p75)
  {
    var r := RelevelAll(s, cohort, p25, p75);
    forall i | 0 <= i < |s| ensures Relevel(r[i], cohort, p25, p75) == r[i] {
      assert r[i] == Relevel(s[i], cohort, p25, p75);
    }
  }

  /** A rerun changes no row, so it bumps no result version. */
  lemma RerunIsIdle(s: seq<Sitting>, cohort: Option<Id>, minCohort: int, dryRun: bool)
    ensures Recompute(Recompute(s, cohort, minCohort, dryRun), cohort, minCohort, dryRun) ==
            Recompute(s, cohort, minCohort, dryRun)
  {
    var scores := Scores(s, cohort);
    if |scores| >= minCohort && scores != [] && !dryRun {
      RelevelKeepsScores(s, cohort, P25(scores), P75(scores));
      RelevelTwice(s, cohort, P25(scores), P75(scores));
    }
  }

  // ---- How many fall in each band ----

  function CountUpTo(s: seq<real>, x: real): nat {
    if s == [] then 0 else CountUpTo(s[..|s| - 1], x) + if s[|s| - 1] <= x then 1 else 0
  }

  function CountFrom(s: seq<real>, x: real): nat {
    if s == [] then 0 else CountFrom(s[..|s| - 1], x) + if s[|s| - 1] >= x then 1 else 0
  }

  lemma CountsSnoc(s: seq<real>, y: real, x: real)
    ensures CountUpTo(s + [y], x) == CountUpTo(s, x) + if y <= x then 1 else 0
    ensures CountFrom(s + [y], x) == CountFrom(s, x) + if y >= x then 1 else 0
  {
    assert (s + [y])[..|s|] == s;
  }

  lemma {:induction false} InsertCounts(s: seq<real>, y: real, x: real)
    requires Sorted(s)
    ensures CountUpTo(Insert(s, y), x) == CountUpTo(s, x) + if y <= x then 1 else 0
    ensures CountFrom(Insert(s, y), x) == CountFrom(s, x) + if y >= x then 1 else 0
  {
    if s == [] || s[|s| - 1] <= y {
      CountsSnoc(s, y, x);
    } else {
      var init, last := s[..|s| - 1], s[|s| - 1];
      InsertCounts(init, y, x);
      CountsSnoc(Insert(init, y), last, x);
    }
  }

  lemma {:induction false} SortCounts(s: seq<real>, x: real)
    ensures CountUpTo(Sort(s), x) == CountUpTo(s, x)
    ensures CountFrom(Sort(s), x) == CountFrom(s, x)
  {
    if s != [] {
      SortCounts(s[..|s| - 1], x);
      InsertCounts(Sort(s[..|s| - 1]), s[|s| - 1], x);
    }
  }

  lemma {:induction false} SortedCounts(s: seq<real>, k: nat)
    requires Sorted(s) && k < |s|
    ensures CountUpTo(s, s[k]) >= k + 1
    ensures CountFrom(s, s[k]) >= |s| - k
    decreases |s|
  {
    var n := |s| - 1;
    if k < n {
      SortedCounts(s[..n], k);
    } else {
      AllUpTo(s[..n], s[k]);
    }
  }

  lemma {:induction false} AllUpTo(s: seq<real>, x: real)
    requires forall i :: 0 <= i < |s| ==> s[i] <= x
    ensures CountUpTo(s, x) == |s|
  {
    if s != [] { AllUpTo(s[..|s| - 1], x); }
  }

  function LevelCount(s: seq<Sitting>, cohort: Option<Id>, b: Band): nat {
    if s == [] then 0
    else LevelCount(s[..|s| - 1], cohort, b)
         + if Selected(s[|s| - 1], cohort) && s[|s| - 1].level == Some(b) then 1 else 0
  }

  lemma CountsAppend(s: seq<Sitting>, a: Sitting, cohort: Option<Id>, x: real)
    ensures CountUpTo(Scores(s + [a], cohort), x) == CountUpTo(Scores(s, cohort), x) + if Selected(a, cohort)
            && a.score.value <= x then 1 else 0
    ensures CountFrom(Scores(s + [a], cohort), x) == CountFrom(Scores(s, cohort), x) + if Selected(a, cohort)
            && a.score.value >= x then 1 else 0
  {
    assert (s + [a])[..|s|] == s;
    var before := Scores(s, cohort);
    if Selected(a, cohort) {
      assert (before + [a.score.value])[..|before|] == before;
    } else {
      assert Scores(s + [a], cohort) == before;
    }
  }

  lemma LevelAppend(s: seq<Sitting>, a: Sitting, cohort: Option<Id>, b: Band)
    ensures LevelCount(s + [a], cohort, b) ==
            LevelCount(s, cohort, b) + if Selected(a, cohort) && a.level == Some(b) then 1 else 0
  {
    assert (s + [a])[..|s|] == s;
  }

  lemma RelevelCount(s: seq<Sitting>, cohort: Option<Id>, p25: real, p75: real, b: Band)
    requires s != []
    ensures LevelCount(RelevelAll(s, cohort, p25, p75), cohort, b) ==
            LevelCount(RelevelAll(s[..|s| - 1], cohort, p25, p75), cohort, b)
            + if Selected(s[|s| - 1], cohort) && BandOf(s[|s| - 1].score.value, p25, p75) == b then 1 else 0
  {
    var init, a := s[..|s| - 1], s[|s| - 1];
    assert RelevelAll(s, cohort, p25, p75) == RelevelAll(init, cohort, p25, p75) + [Relevel(a, cohort, p25, p75)];
    LevelAppend(RelevelAll(init, cohort, p25, p75), Relevel(a, cohort, p25, p75), cohort, b);
  }

  lemma {:induction false} BeginnerCount(s: seq<Sitting>, cohort: Option<Id>, p25: real, p75: real)
    ensures LevelCount(RelevelAll(s, cohort, p25, p75), cohort, Beginner) == CountUpTo(Scores(s, cohort), p25)
  {
    if s != [] {
      var init, a := s[..|s| - 1], s[|s| - 1];
      BeginnerCount(init, cohort, p25, p75);
      RelevelCount(s, cohort, p25, p75, Beginner);
      assert s == init + [a];
      CountsAppend(init, a, cohort, p25);
    }
  }

  lemma {:induction false} AdvancedCount(s: seq<Sitting>, cohort: Option<Id>, p25: real, p75: real)
    requires p25 < p75
    ensures LevelCount(RelevelAll(s, cohort, p25, p75), cohort, Advanced) == CountFrom(Scores(s, cohort), p75)
  {
    if s != [] {
      var init, a := s[..|s| - 1], s[|s| - 1];
      AdvancedCount(init, cohort, p25, p75);
      RelevelCount(s, cohort, p25, p75, Advanced);
      assert s == init + [a];
      CountsAppend(init, a, cohort, p75);
    }
  }

  lemma {:induction false} NoMiddle(s: seq<Sitting>, cohort: Option<Id>, p25: real, p75: real)
    requires p25 >= p75
    ensures LevelCount(RelevelAll(s, cohort, p25, p75), cohort, Intermediate) == 0
  {
    if s != [] {
      NoMiddle(s[..|s| - 1], cohort, p25, p75);
      RelevelCount(s, cohort, p25, p75, Intermediate);
    }
  }

  lemma CountsAt(scores: seq<real>, k: nat)
    requires k < |scores|
    ensures CountUpTo(scores, Sort(scores)[k]) >= k + 1
    ensures CountFrom(scores, Sort(scores)[k]) >= |scores| - k
  {
    SortCounts(scores, Sort(scores)[k]);
    SortedCounts(Sort(scores), k);
  }

  /** At least a quarter (rounded as the percentile index is) is beginner. */
  lemma BottomIsFilled(s: seq<Sitting>, cohort: Option<Id>, minCohort: int)
    requires |Scores(s, cohort)| >= minCohort && Scores(s, cohort) != []
    ensures LevelCount(Recompute(s, cohort, minCohort, false), cohort, Beginner) >= (|Scores(s, cohort)| - 1) / 4 + 1
  {
    var scores := Scores(s, cohort);
    CountsAt(scores, (|scores| - 1) / 4);
    BeginnerCount(s, cohort, P25(scores), P75(scores));
  }

  lemma QuartilesOrdered(scores: seq<real>)
    requires scores != []
    ensures P25(scores) <= P75(scores)
  {
  }

  /** At least a quarter is advanced, unless the quartiles coincide. */
  lemma TopIsFilled(s: seq<Sitting>, cohort: Option<Id>, minCohort: int)
    requires |Scores(s, cohort)| >= minCohort && Scores(s, cohort) != []
    requires P25(Scores(s, cohort)) != P75(Scores(s, cohort))
    ensures LevelCount(Recompute(s, cohort, minCohort, false), cohort, Advanced) >=
            |Scores(s, cohort)| - 3 * (|Scores(s, cohort)| - 1) / 4
  {
    var scores := Scores(s, cohort);
    QuartilesOrdered(scores);
    CountsAt(scores, 3 * (|scores| - 1) / 4);
    AdvancedCount(s, cohort, P25(scores), P75(scores));
  }

  /** When they coincide nobody is intermediate. */
  lemma MiddleIsEmpty(s: seq<Sitting>, cohort: Option<Id>, minCohort: int)
    requires |Scores(s, cohort)| >= minCohort && Scores(s, cohort) != []
    requires P25(Scores(s, cohort)) == P75(Scores(s, cohort))
    ensures LevelCount(Recompute(s, cohort, minCohort, false), cohort, Intermediate) == 0
  {
    NoMiddle(s, cohort, P25(Scores(s, cohort)), P75(Scores(s, cohort)));
  }
}
