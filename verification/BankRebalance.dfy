/** `balance_targets` and `propose_balance`: target lengths for the distractors
    of a question whose answer stands out, the minimum edit, and what a second
    pass says once the edits are in. */
module BankRebalance {
  import opened Options
  import opened BankBalance

  datatype Target = Target(text: string, now: nat, target: nat)
  datatype Targets = Targets(id: string, answerLen: nat, distractors: seq<Target>)
  datatype Proposal = Proposal(id: string, option: string, needed: nat, suggestion: Option<string>)

  // ---- Ordering ----

  predicate ByLength(s: seq<string>) { forall i, j :: 0 <= i < j < |s| ==> |s[i]| <= |s[j]| }

  function InsertByLength(s: seq<string>, x: string): (r: seq<string>)
    requires ByLength(s)
    ensures ByLength(r) && |r| == |s| + 1
    ensures r[|s|] == if s == [] || |s[|s| - 1]| <= |x| then x else s[|s| - 1]
  {
    if s == [] || |s[|s| - 1]| <= |x| then s + [x] else InsertByLength(s[..|s| - 1], x) + [s[|s| - 1]]
  }

  function SortByLength(s: seq<string>): (r: seq<string>)
    ensures ByLength(r) && |r| == |s|
  {
    if s == [] then [] else InsertByLength(SortByLength(s[..|s| - 1]), s[|s| - 1])
  }

  lemma {:induction false} InsertPermutes(s: seq<string>, x: string)
    requires ByLength(s)
    ensures multiset(InsertByLength(s, x)) == multiset(s) + multiset{x}
  {
    if !(s == [] || |s[|s| - 1]| <= |x|) {
      var init, last := s[..|s| - 1], s[|s| - 1];
      InsertPermutes(init, x);
      assert s == init + [last];
      assert multiset(InsertByLength(init, x) + [last]) == multiset(InsertByLength(init, x)) + multiset{last};
    }
  }

  lemma {:induction false} SortPermutes(s: seq<string>)
    ensures multiset(SortByLength(s)) == multiset(s)
  {
    if s != [] {
      var init, last := s[..|s| - 1], s[|s| - 1];
      SortPermutes(init);
      InsertPermutes(SortByLength(init), last);
      assert s == init + [last];
      assert multiset(init + [last]) == multiset(init) + multiset{last};
    }
  }

  predicate Ascending(s: seq<nat>) { forall i, j :: 0 <= i < j < |s| ==> s[i] <= s[j] }

  function InsertNumber(s: seq<nat>, x: nat): (r: seq<nat>)
    requires Ascending(s)
    ensures Ascending(r) && |r| == |s| + 1
    ensures r[|s|] == if s == [] || s[|s| - 1] <= x then x else s[|s| - 1]
  {
    if s == [] || s[|s| - 1] <= x then s + [x] else InsertNumber(s[..|s| - 1], x) + [s[|s| - 1]]
  }

  function SortNumbers(s: seq<nat>): (r: seq<nat>)
    ensures Ascending(r) && |r| == |s|
  {
    if s == [] then [] else InsertNumber(SortNumbers(s[..|s| - 1]), s[|s| - 1])
  }

  // ---- balance_targets ----

  const SPREAD := [1.18, 1.0, 0.84, 0.92, 1.10]

  /** Python's `round`: to the nearest integer, a tie to the even one. */
  function Round(x: real): (n: int)
    ensures Nearest(n, x)
    ensures x - x.Floor as real == 0.5 ==> n % 2 == 0
  {
    var low := x.Floor;
    var rest := x - low as real;
    if rest < 0.5 || (rest == 0.5 && low % 2 == 0) then low else low + 1
  }

  function TargetLength(a: nat, factor: real): nat {
    var n := Round(a as real * factor);
    if n < 8 then 8 else n
  }

  function Lower(a: nat, b: nat): nat { if a < b then a else b }

  function RawTargets(a: nat, count: nat): seq<nat> {
    seq(Lower(count, 5), i requires 0 <= i < Lower(count, 5) => TargetLength(a, SPREAD[i]))
  }

  function Others(options: seq<string>, answer: string): seq<string> { Filter(options, o => o != answer) }

  predicate StrictlyLongest(a: nat, distractors: seq<string>) {
    forall i :: 0 <= i < |distractors| ==> |distractors[i]| < a
  }

  predicate StrictlyShortest(a: nat, distractors: seq<string>) {
    forall i :: 0 <= i < |distractors| ==> a < |distractors[i]|
  }

  function Zip(ordered: seq<string>, targets: seq<nat>): seq<Target> {
    seq(Lower(|ordered|, |targets|),
        i requires 0 <= i < Lower(|ordered|, |targets|) => Target(ordered[i], |ordered[i]|, targets[i]))
  }

  predicate Eligible(q: Question) {
    q.correct != [] && |q.options| >= 3 && |Others(q.options, q.correct[0])| >= 2
  }

  /** The row for one question: only an answer that stands out gets one. */
  function TargetsFor(q: Question): Option<Targets> {
    if !Eligible(q) then None
    else
      var a, distractors := |q.correct[0]|, Others(q.options, q.correct[0]);
      if StrictlyLongest(a, distractors) || StrictlyShortest(a, distractors) then
        Some(Targets(q.id, a, Zip(SortByLength(distractors), SortNumbers(RawTargets(a, |distractors|)))))
      else None
  }

  function Collect<S, T>(s: seq<S>, f: S -> Option<T>): seq<T> {
    if s == [] then []
    else
      var last := f(s[|s| - 1]);
      Collect(s[..|s| - 1], f) + if last.Some? then [last.value] else []
  }

  lemma Found(s: seq<string>, t: seq<string>, i: nat) returns (j: nat)
    requires multiset(s) == multiset(t) && i < |s|
    ensures j < |t| && t[j] == s[i]
  {
    assert s[i] in multiset(t);
    j :| 0 <= j < |t| && t[j] == s[i];
  }

  lemma LongestLast(a: nat, distractors: seq<string>, ordered: seq<string>)
    requires ordered != [] && ByLength(ordered) && multiset(ordered) == multiset(distractors)
    ensures |ordered[|ordered| - 1]| < a <==> StrictlyLongest(a, distractors)
  {
    if |ordered[|ordered| - 1]| < a {
      forall i | 0 <= i < |distractors| ensures |distractors[i]| < a {
        var j := Found(distractors, ordered, i);
      }
    } else {
      var j := Found(ordered, distractors, |ordered| - 1);
    }
  }

  lemma ShortestFirst(a: nat, distractors: seq<string>, ordered: seq<string>)
    requires ordered != [] && ByLength(ordered) && multiset(ordered) == multiset(distractors)
    ensures a < |ordered[0]| <==> StrictlyShortest(a, distractors)
  {
    if a < |ordered[0]| {
      forall i | 0 <= i < |distractors| ensures a < |distractors[i]| {
        var j := Found(distractors, ordered, i);
      }
    } else {
      var j := Found(ordered, distractors, 0);
    }
  }

  lemma Ends(a: nat, distractors: seq<string>)
    requires distractors != []
    ensures |SortByLength(distractors)[|distractors| - 1]| < a <==> StrictlyLongest(a, distractors)
    ensures a < |SortByLength(distractors)[0]| <==> StrictlyShortest(a, distractors)
  {
    SortPermutes(distractors);
    LongestLast(a, distractors, SortByLength(distractors));
    ShortestFirst(a, distractors, SortByLength(distractors));
  }

  method BalanceTargets(questions: seq<Question>) returns (out: seq<Targets>)
    ensures out == Collect(questions, q => TargetsFor(q))
  {
    out := [];
    var n := 0;
    while n < |questions|
      invariant n <= |questions|
      invariant out == Collect(questions[..n], q => TargetsFor(q))
    {
      var q := questions[n];
      assert questions[..n + 1][..n] == questions[..n];
      n := n + 1;
      if |q.options| < 3 || q.correct == [] { continue; }
      var correct := q.correct[0];
      var distractors := Others(q.options, correct);
      if |distractors| < 2 { continue; }
      var a := |correct|;
      var ordered := SortByLength(distractors);
      Ends(a, distractors);
      var longest, shortest := a > |ordered[|ordered| - 1]|, a < |ordered[0]|;
      if !(longest || shortest) { continue; }
      var targets := RawTargets(a, |distractors|);
      out := out + [Targets(q.id, a, Zip(ordered, SortNumbers(targets)))];
    }
    assert questions[..n] == questions;
  }

  // ---- The targets do what they are for ----

  /** Any rounding to a nearest integer, so also that of the floating product. */
  ghost predicate Rounded(t: nat, a: nat, factor: real) {
    RoundsTo(t, a as real * factor)
  }

  ghost predicate RoundsTo(t: nat, x: real) {
    exists n: int :: Nearest(n, x) && t == if n < 8 then 8 else n
  }

  predicate Nearest(n: int, x: real) { x - 0.5 <= n as real <= x + 0.5 }

  ghost predicate Spread(targets: seq<nat>, a: nat, count: nat) {
    |targets| == Lower(count, 5) && forall i :: 0 <= i < |targets| ==> Rounded(targets[i], a, SPREAD[i])
  }

  /** The linter's ratio of answer to mean distractor length. */
  predicate InBand(ratio: real) { 1.0 / 1.3 <= ratio <= 1.3 }

  predicate MeetsBand(a: nat, lengths: seq<nat>) {
    lengths != [] && Mean(lengths) > 0.0 && InBand(a as real / Mean(lengths))
  }

  ghost predicate Straddle(targets: seq<nat>, a: nat) {
    (exists i :: 0 <= i < |targets| && targets[i] < a) && (exists i :: 0 <= i < |targets| && targets[i] > a)
  }

  lemma RawTargetsSpread(a: nat, count: nat)
    ensures Spread(RawTargets(a, count), a, count)
  {
    var targets := RawTargets(a, count);
    forall i | 0 <= i < |targets| ensures Rounded(targets[i], a, SPREAD[i]) {
      var n := Round(a as real * SPREAD[i]);
      assert Nearest(n, a as real * SPREAD[i]);
    }
  }

  lemma Bounds(t: nat, a: nat, factor: real)
    requires Rounded(t, a, factor)
    ensures t >= 8 && t as real >= a as real * factor - 0.5
    ensures t as real <= a as real * factor + 0.5 || t == 8
  {
  }

  /** Two distractors never straddle the answer; with three or more they do
      exactly when the answer has at least nine characters. */
  lemma TargetsStraddleIff(targets: seq<nat>, a: nat, count: nat)
    requires Spread(targets, a, count) && count >= 2
    ensures Straddle(targets, a) <==> count >= 3 && a >= 9
  {
    if a <= 8 {
      forall i | 0 <= i < |targets| ensures targets[i] >= a {
        Bounds(targets[i], a, SPREAD[i]);
      }
    } else {
      Bounds(targets[0], a, 1.18);
      Bounds(targets[1], a, 1.0);
      assert targets[0] > a && targets[1] >= a;
      if count >= 3 {
        Bounds(targets[2], a, 0.84);
        assert targets[2] < a;
      }
    }
  }

  // ---- The linter's ratio ----

  function Times(x: real, n: nat): real { if n == 0 then 0.0 else Times(x, n - 1) + x }

  lemma {:induction false} TimesIs(x: real, n: nat)
    ensures Times(x, n) == x * n as real
  {
    if n > 0 {
      TimesIs(x, n - 1);
      OneMore(x, n - 1);
    }
  }

  lemma OneMore(x: real, n: nat)
    ensures x * (n + 1) as real == x * n as real + x
  {
    assert (n + 1) as real == n as real + 1.0;
  }

  lemma {:induction false} SumBetween(s: seq<nat>, low: real, high: real)
    requires forall i :: 0 <= i < |s| ==> low <= s[i] as real <= high
    ensures Times(low, |s|) <= Sum(s) as real <= Times(high, |s|)
  {
    if s != [] {
      SumBetween(s[..|s| - 1], low, high);
    }
  }

  lemma MeanBetween(s: seq<nat>, low: real, high: real)
    requires s != [] && forall i :: 0 <= i < |s| ==> low <= s[i] as real <= high
    ensures low <= Mean(s) <= high
  {
    SumBetween(s, low, high);
    TimesIs(low, |s|);
    TimesIs(high, |s|);
    Quotient(low, Sum(s) as real, |s| as real);
    Quotient(-high, -(Sum(s) as real), |s| as real);
  }

  /** Any length within the band of an answer, or the eight of a short one. */
  predicate Near(t: nat, a: nat) {
    && t >= 8
    && (a >= 7 ==> a as real / 1.3 <= t as real <= 1.3 * a as real)
    && (a <= 7 ==> t == 8)
  }

  lemma TargetNear(t: nat, a: nat, factor: real)
    requires Rounded(t, a, factor) && factor in SPREAD
    ensures Near(t, a)
  {
    if factor == 1.18 {
      RoundedNear(t, a, a as real * 1.18);
    } else if factor == 1.0 {
      RoundedNear(t, a, a as real * 1.0);
    } else if factor == 0.84 {
      RoundedNear(t, a, a as real * 0.84);
    } else if factor == 0.92 {
      RoundedNear(t, a, a as real * 0.92);
    } else {
      RoundedNear(t, a, a as real * 1.10);
    }
  }

  lemma RoundedNear(t: nat, a: nat, x: real)
    requires RoundsTo(t, x) && 0.84 * a as real <= x <= 1.18 * a as real
    ensures Near(t, a)
  {
  }

  /** Lengths near the answer meet the band exactly from seven characters on. */
  lemma NearMeetsBand(a: nat, lengths: seq<nat>)
    requires lengths != [] && forall i :: 0 <= i < |lengths| ==> Near(lengths[i], a)
    ensures MeetsBand(a, lengths) <==> a >= 7
  {
    if a >= 7 {
      MeanBetween(lengths, a as real / 1.3, 1.3 * a as real);
      Quotient(1.0 / 1.3, a as real, Mean(lengths));
      Quotient(-1.3, -(a as real), Mean(lengths));
    } else {
      MeanBetween(lengths, 8.0, 8.0);
      assert a as real / 8.0 <= 0.75;
    }
  }

  lemma SpreadNear(targets: seq<nat>, a: nat, count: nat)
    requires Spread(targets, a, count)
    ensures forall i :: 0 <= i < |targets| ==> Near(targets[i], a)
  {
    forall i | 0 <= i < |targets| ensures Near(targets[i], a) {
      TargetNear(targets[i], a, SPREAD[i]);
    }
  }

  /** The answer is within the linter's band of the mean target exactly when it has
      at least seven characters. */
  lemma TargetsMeetBand(targets: seq<nat>, a: nat, count: nat)
    requires Spread(targets, a, count) && count >= 1
    ensures MeetsBand(a, targets) <==> a >= 7
  {
    SpreadNear(targets, a, count);
    NearMeetsBand(a, targets);
  }

  lemma Quotient(low: real, x: real, y: real)
    requires y > 0.0 && low * y <= x
    ensures low <= x / y && -x / y == -(x / y)
  {
    var r := x / y;
    assert r * y == x;
  }

  // ---- What the tool reports ----

  function TargetLengths(rows: seq<Target>): (r: seq<nat>)
    ensures |r| == |rows| && forall i :: 0 <= i < |r| ==> r[i] == rows[i].target
  {
    seq(|rows|, i requires 0 <= i < |rows| => rows[i].target)
  }

  lemma SumSnoc(s: seq<nat>, x: nat)
    ensures Sum(s + [x]) == Sum(s) + x
  {
    assert (s + [x])[..|s|] == s;
  }

  lemma {:induction false} InsertAdds(s: seq<nat>, x: nat)
    requires Ascending(s)
    ensures Sum(InsertNumber(s, x)) == Sum(s) + x
  {
    if s == [] || s[|s| - 1] <= x {
      SumSnoc(s, x);
    } else {
      InsertAdds(s[..|s| - 1], x);
      SumSnoc(InsertNumber(s[..|s| - 1], x), s[|s| - 1]);
    }
  }

  lemma {:induction false} SortKeepsSum(s: seq<nat>)
    ensures Sum(SortNumbers(s)) == Sum(s)
  {
    if s != [] {
      SortKeepsSum(s[..|s| - 1]);
      InsertAdds(SortNumbers(s[..|s| - 1]), s[|s| - 1]);
    }
  }

  lemma {:induction false} InsertMembers(s: seq<nat>, x: nat, y: nat)
    requires Ascending(s)
    ensures y in InsertNumber(s, x) <==> y in s || y == x
  {
    if !(s == [] || s[|s| - 1] <= x) {
      InsertMembers(s[..|s| - 1], x, y);
      assert s == s[..|s| - 1] + [s[|s| - 1]];
    }
  }

  lemma {:induction false} SortKeepsMembers(s: seq<nat>, y: nat)
    ensures y in SortNumbers(s) <==> y in s
  {
    if s != [] {
      SortKeepsMembers(s[..|s| - 1], y);
      InsertMembers(SortNumbers(s[..|s| - 1]), s[|s| - 1], y);
      assert s == s[..|s| - 1] + [s[|s| - 1]];
    }
  }

  lemma SameMembersStraddle(s: seq<nat>, t: seq<nat>, a: nat)
    requires (forall y :: y in s ==> y in t) && Straddle(s, a)
    ensures Straddle(t, a)
  {
    var i :| 0 <= i < |s| && s[i] < a;
    var j :| 0 <= j < |s| && s[j] > a;
    assert s[i] in t && s[j] in t;
    var k :| 0 <= k < |t| && t[k] == s[i];
    var l :| 0 <= l < |t| && t[l] == s[j];
  }

  lemma ReportedAre(q: Question)
    requires TargetsFor(q).Some?
    ensures var (a, count) := (|q.correct[0]|, |Others(q.options, q.correct[0])|);
            && TargetsFor(q).value.answerLen == a
            && TargetLengths(TargetsFor(q).value.distractors) == SortNumbers(RawTargets(a, count))
  {
  }

  /** The targets reported for a question straddle its answer exactly when it has
      three distractors or more and an answer of at least nine characters, and meet
      the linter's ratio exactly when the answer has at least seven. */
  lemma ReportedTargetsFit(q: Question)
    requires TargetsFor(q).Some?
    ensures var (a, count) := (|q.correct[0]|, |Others(q.options, q.correct[0])|);
            var targets := TargetLengths(TargetsFor(q).value.distractors);
            && (Straddle(targets, a) <==> count >= 3 && a >= 9)
            && (MeetsBand(a, targets) <==> a >= 7)
  {
    var a, count := |q.correct[0]|, |Others(q.options, q.correct[0])|;
    var raw := RawTargets(a, count);
    ReportedAre(q);
    RawTargetsSpread(a, count);
    SortedFit(raw, a, count);
  }

  lemma SortedFit(raw: seq<nat>, a: nat, count: nat)
    requires Spread(raw, a, count) && count >= 2
    ensures Straddle(SortNumbers(raw), a) <==> count >= 3 && a >= 9
    ensures MeetsBand(a, SortNumbers(raw)) <==> a >= 7
  {
    TargetsStraddleIff(raw, a, count);
    TargetsMeetBand(raw, a, count);
    SortKeepsSum(raw);
    assert Mean(SortNumbers(raw)) == Mean(raw);
    forall y ensures y in SortNumbers(raw) <==> y in raw {
      SortKeepsMembers(raw, y);
    }
    if Straddle(raw, a) {
      SameMembersStraddle(raw, SortNumbers(raw), a);
    }
    if Straddle(SortNumbers(raw), a) {
      SameMembersStraddle(SortNumbers(raw), raw, a);
    }
  }
}
