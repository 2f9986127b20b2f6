/** Question-bank balance: which questions give their answer away by length,
    what lengths would fix them, and the edits the tool proposes. */
module BankBalance {
  datatype Question = Question(id: string, kind: string, options: seq<string>, correct: seq<string>)

  // ---- Lengths ----

  function Lengths(options: seq<string>): (r: seq<nat>)
    ensures |r| == |options| && forall i :: 0 <= i < |r| ==> r[i] == |options[i]|
  {
    seq(|options|, i requires 0 <= i < |options| => |options[i]|)
  }

  function Max(s: seq<nat>): (m: nat)
    requires s != []
    ensures m in s && forall i :: 0 <= i < |s| ==> s[i] <= m
  {
    var last := s[|s| - 1];
    if |s| == 1 then last
    else
      var m := Max(s[..|s| - 1]);
      assert forall i :: 0 <= i < |s| - 1 ==> s[i] == s[..|s| - 1][i];
      if last > m then last else m
  }

  function Min(s: seq<nat>): (m: nat)
    requires s != []
    ensures m in s && forall i :: 0 <= i < |s| ==> m <= s[i]
  {
    var last := s[|s| - 1];
    if |s| == 1 then last
    else
      var m := Min(s[..|s| - 1]);
      assert forall i :: 0 <= i < |s| - 1 ==> s[i] == s[..|s| - 1][i];
      if last < m then last else m
  }

  function Occurrences(s: seq<nat>, n: nat): nat { multiset(s)[n] }

  function Sum(s: seq<nat>): nat {
    if s == [] then 0 else Sum(s[..|s| - 1]) + s[|s| - 1]
  }

  function Filter<T>(s: seq<T>, p: T -> bool): seq<T> {
    if s == [] then []
    else Filter(s[..|s| - 1], p) + if p(s[|s| - 1]) then [s[|s| - 1]] else []
  }

  function Mean(s: seq<nat>): real
    requires s != []
  {
    Sum(s) as real / |s| as real
  }

  lemma {:induction false} FilterContents<T>(s: seq<T>, p: T -> bool)
    ensures forall x :: x in Filter(s, p) <==> x in s && p(x)
    ensures |Filter(s, p)| <= |s|
  {
    if s != [] {
      FilterContents(s[..|s| - 1], p);
      assert s == s[..|s| - 1] + [s[|s| - 1]];
    }
  }

  // ---- _balance_stats ----

  function Chosen(q: Question): seq<string> { Filter(q.options, o => o in q.correct) }
  function Wrong(q: Question): seq<string> { Filter(q.options, o => o !in q.correct) }

  predicate Counted(q: Question) {
    q.kind != "truefalse" && |q.options| >= 2 && q.correct != [] && Chosen(q) != [] && Wrong(q) != []
  }

  /** The answer is strictly longer than every other option. */
  ghost predicate StandsOutLong(q: Question) {
    && Counted(q) && q.kind != "multi"
    && exists i :: 0 <= i < |q.options| && |q.options[i]| == |Chosen(q)[0]|
         && forall j :: 0 <= j < |q.options| && j != i ==> |q.options[j]| < |q.options[i]|
  }

  ghost predicate StandsOutShort(q: Question) {
    && Counted(q) && q.kind != "multi"
    && exists i :: 0 <= i < |q.options| && |q.options[i]| == |Chosen(q)[0]|
         && forall j :: 0 <= j < |q.options| && j != i ==> |q.options[j]| > |q.options[i]|
  }

  /** Only a question with one answer to pick among listed options can stand out. */
  lemma StandingOutMeans(q: Question)
    requires StandsOutLong(q) || StandsOutShort(q)
    ensures q.kind != "truefalse" && q.kind != "multi" && q.correct != [] && |q.options| >= 2
    ensures exists i :: 0 <= i < |q.options| && q.options[i] in q.correct
    ensures exists i :: 0 <= i < |q.options| && q.options[i] !in q.correct
  {
    FilterContents(q.options, o => o in q.correct);
    FilterContents(q.options, o => o !in q.correct);
    assert Chosen(q)[0] in Chosen(q) && Wrong(q)[0] in Wrong(q);
    assert Chosen(q)[0] in q.options && Wrong(q)[0] in q.options;
  }

  lemma OnlyOne(s: seq<nat>, i: nat)
    requires i < |s|
    ensures Occurrences(s, s[i]) == 1 <==> forall j :: 0 <= j < |s| && j != i ==> s[j] != s[i]
  {
    var rest := s[..i] + s[i + 1..];
    assert s == s[..i] + [s[i]] + s[i + 1..];
    assert multiset(s) == multiset(rest) + multiset{s[i]};
    if Occurrences(s, s[i]) == 1 {
      forall j | 0 <= j < |s| && j != i ensures s[j] != s[i] {
        assert s[j] in rest by {
          if j < i { assert rest[j] == s[j]; } else { assert rest[j - 1] == s[j]; }
        }
      }
    } else {
      assert multiset(rest)[s[i]] > 0;
      assert s[i] in rest;
      var k :| 0 <= k < |rest| && rest[k] == s[i];
      var j := if k < i then k else k + 1;
      assert s[j] == s[i] && j != i;
    }
  }

  /** The linter's counting test is the plain meaning of "strictly longest". */
  lemma LongTest(q: Question)
    requires Counted(q) && q.kind != "multi"
    ensures var lengths := Lengths(q.options);
            (Occurrences(lengths, Max(lengths)) == 1 && |Chosen(q)[0]| == Max(lengths)) <==> StandsOutLong(q)
  {
    var lengths := Lengths(q.options);
    var i :| 0 <= i < |lengths| && lengths[i] == Max(lengths);
    OnlyOne(lengths, i);
    if StandsOutLong(q) {
      var k :| 0 <= k < |q.options| && |q.options[k]| == |Chosen(q)[0]|
        && forall j :: 0 <= j < |q.options| && j != k ==> |q.options[j]| < |q.options[k]|;
      assert lengths[k] == |q.options[k]| && lengths[i] == |q.options[i]|;
      assert i == k by { assert lengths[k] <= Max(lengths); }
    }
  }

  lemma ShortTest(q: Question)
    requires Counted(q) && q.kind != "multi"
    ensures var lengths := Lengths(q.options);
            (Occurrences(lengths, Min(lengths)) == 1 && |Chosen(q)[0]| == Min(lengths)) <==> StandsOutShort(q)
  {
    var lengths := Lengths(q.options);
    var i :| 0 <= i < |lengths| && lengths[i] == Min(lengths);
    OnlyOne(lengths, i);
    if StandsOutShort(q) {
      var k :| 0 <= k < |q.options| && |q.options[k]| == |Chosen(q)[0]|
        && forall j :: 0 <= j < |q.options| && j != k ==> |q.options[j]| > |q.options[k]|;
      assert lengths[k] == |q.options[k]| && lengths[i] == |q.options[i]|;
      assert i == k by { assert Min(lengths) <= lengths[k]; }
    }
  }

  ghost function Ids(questions: seq<Question>, p: Question -> bool): seq<string> {
    if questions == [] then []
    else
      var q := questions[|questions| - 1];
      Ids(questions[..|questions| - 1], p) + if p(q) then [q.id] else []
  }

  function Ratios(questions: seq<Question>): seq<real> {
    if questions == [] then []
    else
      var q := questions[|questions| - 1];
      Ratios(questions[..|questions| - 1])
      + if Counted(q) && Mean(Lengths(Wrong(q))) != 0.0 then [Mean(Lengths(Chosen(q))) / Mean(Lengths(Wrong(q)))]
        else []
  }

  method BalanceStats(questions: seq<Question>) returns (sample: nat, longest: seq<string>,
      shortest: seq<string>, ratios: seq<real>)
    ensures sample == |Ids(questions, q => Counted(q))|
    ensures longest == Ids(questions, q => StandsOutLong(q))
    ensures shortest == Ids(questions, q => StandsOutShort(q))
    ensures ratios == Ratios(questions)
  {
    sample, longest, shortest, ratios := 0, [], [], [];
    var n := 0;
    while n < |questions|
      invariant n <= |questions|
      invariant sample == |Ids(questions[..n], q => Counted(q))|
      invariant longest == Ids(questions[..n], q => StandsOutLong(q))
      invariant shortest == Ids(questions[..n], q => StandsOutShort(q))
      invariant ratios == Ratios(questions[..n])
    {
      var q := questions[n];
      assert questions[..n + 1][..n] == questions[..n];
      n := n + 1;
      if q.kind == "truefalse" { continue; }
      if |q.options| < 2 { continue; }
      if q.correct == [] { continue; }
      var chosen, distractors := Chosen(q), Wrong(q);
      if chosen == [] || distractors == [] { continue; }
      sample := sample + 1;
      var meanCorrect, meanDistractor := Mean(Lengths(chosen)), Mean(Lengths(distractors));
      if meanDistractor != 0.0 {
        ratios := ratios + [meanCorrect / meanDistractor];
      }
      if q.kind == "multi" { continue; }
      var lengths := Lengths(q.options);
      LongTest(q);
      ShortTest(q);
      if Occurrences(lengths, Max(lengths)) == 1 && |chosen[0]| == Max(lengths) {
        longest := longest + [q.id];
      }
      if Occurrences(lengths, Min(lengths)) == 1 && |chosen[0]| == Min(lengths) {
        shortest := shortest + [q.id];
      }
    }
    assert questions[..n] == questions;
  }
}
