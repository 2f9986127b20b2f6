/** The linter's length thresholds, and what they say of a bank whose distractors
    were brought to their target lengths. */
module BankLinter {
  import opened BankBalance
  import opened BankRebalance
  import opened BankProposals

  const MIN_BALANCE_SAMPLE := 5
  const MAX_EXTREME_SHARE := 0.40

  datatype Extreme = LongestOption | ShortestOption
  datatype Violation = Share(extreme: Extreme, ids: seq<string>, sample: nat) | Ratio(mean: real)

  predicate TooMany(count: nat, sample: nat)
    requires sample > 0
  {
    count as real / sample as real > MAX_EXTREME_SHARE
  }

  function SumReals(s: seq<real>): real {
    if s == [] then 0.0 else SumReals(s[..|s| - 1]) + s[|s| - 1]
  }

  function MeanReal(s: seq<real>): real
    requires s != []
  {
    SumReals(s) / |s| as real
  }

  function ShareViolation(extreme: Extreme, ids: seq<string>, sample: nat): seq<Violation>
    requires sample > 0
  {
    if TooMany(|ids|, sample) then [Share(extreme, ids, sample)] else []
  }

  function RatioViolation(ratios: seq<real>): seq<Violation> {
    if ratios != [] && !InBand(MeanReal(ratios)) then [Ratio(MeanReal(ratios))] else []
  }

  function ViolationsFrom(sample: nat, longest: seq<string>, shortest: seq<string>, ratios: seq<real>): seq<Violation> {
    if sample < MIN_BALANCE_SAMPLE then []
    else
      ShareViolation(LongestOption, longest, sample) + ShareViolation(ShortestOption, shortest, sample)
      + RatioViolation(ratios)
  }

  ghost function ViolationsOf(questions: seq<Question>): seq<Violation> {
    ViolationsFrom(|Ids(questions, q => Counted(q))|, Ids(questions, q => StandsOutLong(q)),
                   Ids(questions, q => StandsOutShort(q)), Ratios(questions))
  }

  /** `_distractor_balance_violations` */
  method BalanceViolations(questions: seq<Question>) returns (out: seq<Violation>)
    ensures out == ViolationsOf(questions)
  {
    var sample, longest, shortest, ratios := BalanceStats(questions);
    out := [];
    if sample < MIN_BALANCE_SAMPLE {
      return;
    }
    var n := 0;
    while n < 2
      invariant n <= 2
      invariant out == (if n > 0 then ShareViolation(LongestOption, longest, sample) else [])
                       + (if n > 1 then ShareViolation(ShortestOption, shortest, sample) else [])
    {
      var extreme, ids := if n == 0 then LongestOption else ShortestOption, if n == 0 then longest else shortest;
      n := n + 1;
      if TooMany(|ids|, sample) {
        out := out + [Share(extreme, ids, sample)];
      }
    }
    if ratios != [] && !InBand(MeanReal(ratios)) {
      out := out + [Ratio(MeanReal(ratios))];
    }
  }

  /** Exactly what is reported: nothing for fewer than five counted questions; else
      the answers that stand out by length when they are over two fifths of them, and
      the mean ratio when it is outside 1/1.3 to 1.3. */
  lemma ViolationsAre(questions: seq<Question>, v: Violation)
    ensures var (sample, ratios) := (|Ids(questions, q => Counted(q))|, Ratios(questions));
            v in ViolationsOf(questions) <==>
            && sample >= 5
            && match v
               case Ratio(mean) =>
                 && ratios != [] && mean == SumReals(ratios) / |ratios| as real
                 && (mean < 1.0 / 1.3 || mean > 1.3)
               case Share(extreme, ids, n) =>
                 && n == sample && 5 * |ids| > 2 * n
                 && ids == (if extreme == LongestOption then Ids(questions, q => StandsOutLong(q))
                            else Ids(questions, q => StandsOutShort(q)))
  {
    var sample := |Ids(questions, q => Counted(q))|;
    if sample >= 5 {
      TooManyIff(|Ids(questions, q => StandsOutLong(q))|, sample);
      TooManyIff(|Ids(questions, q => StandsOutShort(q))|, sample);
    }
  }

  // ---- Questions at their target lengths ----

  /** Single-answer questions with a target for every distractor. */
  predicate Targeted(q: Question) {
    && q.kind != "truefalse" && q.kind != "multi"
    && |q.correct| == 1 && multiset(q.options)[q.correct[0]] == 1
    && 2 <= |Others(q.options, q.correct[0])| <= 5
  }

  /** The distractors, by length, have exactly the target lengths. */
  ghost predicate FittedTo(q: Question, raw: seq<nat>)
    requires Targeted(q)
  {
    var distractors := Others(q.options, q.correct[0]);
    Spread(raw, |q.correct[0]|, |distractors|) && Lengths(SortByLength(distractors)) == SortNumbers(raw)
  }

  ghost predicate Fitted(q: Question) {
    Targeted(q) && exists raw :: FittedTo(q, raw)
  }

  lemma FittedLength(q: Question, raw: seq<nat>, o: string)
    requires Targeted(q) && FittedTo(q, raw) && o in Others(q.options, q.correct[0])
    ensures |o| in raw
  {
    var distractors := Others(q.options, q.correct[0]);
    var sorted := SortByLength(distractors);
    SortPermutes(distractors);
    var i :| 0 <= i < |distractors| && distractors[i] == o;
    var j := Found(distractors, sorted, i);
    assert Lengths(sorted)[j] == |o|;
    SortKeepsMembers(raw, |o|);
  }

  lemma FittedTarget(q: Question, raw: seq<nat>, t: nat) returns (o: string)
    requires Targeted(q) && FittedTo(q, raw) && t in raw
    ensures o in Others(q.options, q.correct[0]) && |o| == t
  {
    var distractors := Others(q.options, q.correct[0]);
    var sorted := SortByLength(distractors);
    SortPermutes(distractors);
    SortKeepsMembers(raw, t);
    var j :| 0 <= j < |sorted| && Lengths(sorted)[j] == t;
    var i := Found(sorted, distractors, j);
    o := distractors[i];
  }

  lemma FittedNear(q: Question, o: string)
    requires Fitted(q) && o in Others(q.options, q.correct[0])
    ensures Near(|o|, |q.correct[0]|)
  {
    var raw :| FittedTo(q, raw);
    SpreadNear(raw, |q.correct[0]|, |Others(q.options, q.correct[0])|);
    FittedLength(q, raw, o);
  }

  /** From eight characters on one target is the answer's own length. */
  lemma FittedEqual(q: Question) returns (o: string)
    requires Fitted(q) && |q.correct[0]| >= 8
    ensures o in Others(q.options, q.correct[0]) && |o| == |q.correct[0]|
  {
    var a := |q.correct[0]|;
    var raw :| FittedTo(q, raw);
    assert Rounded(raw[1], a, SPREAD[1]);
    SameLength(raw[1], a);
    o := FittedTarget(q, raw, raw[1]);
  }

  lemma SameLength(t: nat, a: nat)
    requires RoundsTo(t, a as real * 1.0) && a >= 8
    ensures t == a
  {
  }

  lemma TargetedSize(q: Question)
    requires Targeted(q)
    ensures |q.options| >= 3
  {
    CountOthers(q.options, q.correct[0]);
  }

  // ---- What the linter says of such a question ----

  lemma FittedNotLongest(q: Question)
    requires Fitted(q)
    ensures !StandsOutLong(q)
  {
    var a, distractors := |q.correct[0]|, Others(q.options, q.correct[0]);
    TargetedSize(q);
    LongIffLongest(q);
    if a >= 8 {
      var o := FittedEqual(q);
    } else {
      assert distractors[0] in distractors;
      FittedNear(q, distractors[0]);
    }
  }

  lemma LongIffLongest(q: Question)
    requires Targeted(q)
    ensures StandsOutLong(q) <==> StrictlyLongest(|q.correct[0]|, Others(q.options, q.correct[0]))
  {
    TargetedSize(q);
    SingleAnswer(q);
    LongestAmong(q.options, q.correct[0]);
  }

  /** Some option has the answer's length and every other is longer. */
  ghost predicate Bottoms(options: seq<string>, a: nat) {
    exists i :: 0 <= i < |options| && |options[i]| == a
      && forall j :: 0 <= j < |options| && j != i ==> |options[j]| > |options[i]|
  }

  lemma ShortestAmong(options: seq<string>, answer: string)
    requires multiset(options)[answer] == 1
    ensures Bottoms(options, |answer|) <==> StrictlyShortest(|answer|, Others(options, answer))
  {
    assert answer in multiset(options);
    var k :| 0 <= k < |options| && options[k] == answer;
    OnlyAnswer(options, k);
    FilterContents(options, o => o != answer);
    var others := Others(options, answer);
    if StrictlyShortest(|answer|, others) {
      forall j | 0 <= j < |options| && j != k ensures |options[j]| > |options[k]| {
        assert options[j] in others;
      }
    }
    if Bottoms(options, |answer|) {
      forall m | 0 <= m < |others| ensures |others[m]| > |answer| {
        assert others[m] in others;
        var j :| 0 <= j < |options| && options[j] == others[m];
        assert |options[k]| == |answer|;
      }
    }
  }

  lemma ShortIffShortest(q: Question)
    requires Targeted(q)
    ensures StandsOutShort(q) <==> StrictlyShortest(|q.correct[0]|, Others(q.options, q.correct[0]))
  {
    TargetedSize(q);
    SingleAnswer(q);
    ShortestAmong(q.options, q.correct[0]);
  }

  lemma FittedShortestIff(q: Question)
    requires Fitted(q)
    ensures StandsOutShort(q) <==> |q.correct[0]| < 8
  {
    var a, distractors := |q.correct[0]|, Others(q.options, q.correct[0]);
    ShortIffShortest(q);
    if a >= 8 {
      var o := FittedEqual(q);
    } else {
      forall i | 0 <= i < |distractors| ensures a < |distractors[i]| {
        FittedNear(q, distractors[i]);
      }
    }
  }

  function RatioOf(q: Question): real
    requires Counted(q) && Mean(Lengths(Wrong(q))) != 0.0
  {
    Mean(Lengths(Chosen(q))) / Mean(Lengths(Wrong(q)))
  }

  lemma FittedRatioIff(q: Question)
    requires Fitted(q)
    ensures Counted(q) && Mean(Lengths(Wrong(q))) != 0.0
    ensures InBand(RatioOf(q)) <==> |q.correct[0]| >= 7
  {
    var a := |q.correct[0]|;
    TargetedSize(q);
    SingleAnswer(q);
    var chosen, wrong := Lengths(Chosen(q)), Lengths(Wrong(q));
    forall i | 0 <= i < |chosen| ensures chosen[i] == a {
      assert Chosen(q)[i] in Chosen(q);
    }
    MeanBetween(chosen, a as real, a as real);
    forall i | 0 <= i < |wrong| ensures Near(wrong[i], a) {
      assert Wrong(q)[i] in Wrong(q);
      FittedNear(q, Wrong(q)[i]);
    }
    NearMeetsBand(a, wrong);
    MeanAtLeast(wrong, a);
  }

  lemma MeanAtLeast(lengths: seq<nat>, a: nat)
    requires lengths != [] && forall i :: 0 <= i < |lengths| ==> Near(lengths[i], a)
    ensures Mean(lengths) > 0.0
  {
    if a >= 7 {
      MeanBetween(lengths, a as real / 1.3, 1.3 * a as real);
    } else {
      MeanBetween(lengths, 8.0, 8.0);
    }
  }

  /** At its target lengths a question's answer is never the longest option, is the
      strictly shortest one exactly when it has fewer than the eight characters no
      target goes below, and is within the ratio exactly from seven on. */
  lemma FittedQuestion(q: Question)
    requires Fitted(q)
    ensures Counted(q) && !StandsOutLong(q) && (StandsOutShort(q) <==> |q.correct[0]| < 8)
    ensures Mean(Lengths(Wrong(q))) != 0.0 && (InBand(RatioOf(q)) <==> |q.correct[0]| >= 7)
  {
    FittedNotLongest(q);
    FittedShortestIff(q);
    FittedRatioIff(q);
  }

  /** Under an answer of fewer than eight characters every target is eight. */
  lemma EightsAreFitted(q: Question)
    requires Targeted(q) && |q.correct[0]| < 8
    requires forall o :: o in Others(q.options, q.correct[0]) ==> |o| == 8
    ensures Fitted(q)
  {
    var a, distractors := |q.correct[0]|, Others(q.options, q.correct[0]);
    var raw := RawTargets(a, |distractors|);
    RawTargetsSpread(a, |distractors|);
    SpreadNear(raw, a, |distractors|);
    forall i | 0 <= i < |distractors|
      ensures Lengths(SortByLength(distractors))[i] == SortNumbers(raw)[i]
    {
      SortedTarget(raw, i);
      SortedOption(distractors, i);
    }
    assert FittedTo(q, raw);
  }

  lemma SortedTarget(raw: seq<nat>, i: nat)
    requires i < |raw| && forall t :: t in raw ==> t == 8
    ensures SortNumbers(raw)[i] == 8
  {
    SortKeepsMembers(raw, SortNumbers(raw)[i]);
  }

  lemma SortedOption(distractors: seq<string>, i: nat)
    requires i < |distractors| && forall o :: o in distractors ==> |o| == 8
    ensures |SortByLength(distractors)[i]| == 8
  {
    SortPermutes(distractors);
    var j := Found(SortByLength(distractors), distractors, i);
    assert distractors[j] in distractors;
  }

  /** An answer of seven characters over two distractors of their target length. */
  lemma BriefAnswerStaysShortest()
    ensures var q := Question("q", "mcq", ["1234567", "abcdefgh", "ABCDEFGH"], ["1234567"]);
            Fitted(q) && StandsOutShort(q)
  {
    var q := Question("q", "mcq", ["1234567", "abcdefgh", "ABCDEFGH"], ["1234567"]);
    AnswerFirst("1234567", "abcdefgh", "ABCDEFGH");
    assert multiset(q.options)["1234567"] == 1;
    EightsAreFitted(q);
    FittedQuestion(q);
  }

  // ---- Whole banks ----

  ghost predicate FittedBank(questions: seq<Question>) {
    forall i :: 0 <= i < |questions| ==> Fitted(questions[i])
  }

  /** The questions whose answer is shorter than every target. */
  function Brief(questions: seq<Question>): nat {
    if questions == [] then 0
    else
      var q := questions[|questions| - 1];
      Brief(questions[..|questions| - 1]) + if q.correct != [] && |q.correct[0]| < 8 then 1 else 0
  }

  lemma {:induction false} FittedCounts(questions: seq<Question>)
    requires FittedBank(questions)
    ensures |Ids(questions, q => Counted(q))| == |questions|
    ensures Ids(questions, q => StandsOutLong(q)) == []
    ensures |Ids(questions, q => StandsOutShort(q))| == Brief(questions)
  {
    if questions != [] {
      FittedCounts(questions[..|questions| - 1]);
      FittedQuestion(questions[|questions| - 1]);
    }
  }

  lemma {:induction false} FittedRatios(questions: seq<Question>)
    requires FittedBank(questions) && forall i :: 0 <= i < |questions| ==> |questions[i].correct[0]| >= 7
    ensures |Ratios(questions)| == |questions|
    ensures forall i :: 0 <= i < |questions| ==> InBand(Ratios(questions)[i])
  {
    if questions != [] {
      FittedRatios(questions[..|questions| - 1]);
      FittedQuestion(questions[|questions| - 1]);
    }
  }

  lemma {:induction false} SumInBand(s: seq<real>)
    requires forall i :: 0 <= i < |s| ==> InBand(s[i])
    ensures Times(1.0 / 1.3, |s|) <= SumReals(s) <= Times(1.3, |s|)
  {
    if s != [] {
      SumInBand(s[..|s| - 1]);
    }
  }

  lemma MeanInBand(s: seq<real>)
    requires s != [] && forall i :: 0 <= i < |s| ==> InBand(s[i])
    ensures InBand(MeanReal(s))
  {
    SumInBand(s);
    TimesIs(1.0 / 1.3, |s|);
    TimesIs(1.3, |s|);
    Quotient(1.0 / 1.3, SumReals(s), |s| as real);
    Quotient(-1.3, -SumReals(s), |s| as real);
  }

  lemma TooManyIff(count: nat, sample: nat)
    requires sample > 0
    ensures TooMany(count, sample) <==> 5 * count > 2 * sample
  {
    var share := count as real / sample as real;
    assert share * sample as real == count as real;
    if share > 0.4 {
      assert (share - 0.4) * sample as real > 0.0;
    } else {
      assert (0.4 - share) * sample as real >= 0.0;
    }
  }

  /** A bank at its target lengths is flagged for its extreme answers exactly when
      it has five questions or more and over two fifths of its answers are shorter
      than eight characters, and then as shortest. */
  lemma FittedBankShares(questions: seq<Question>)
    requires FittedBank(questions)
    ensures ViolationsOf(questions) ==
            if |questions| < 5 then []
            else (if 5 * Brief(questions) > 2 * |questions|
                  then [Share(ShortestOption, Ids(questions, q => StandsOutShort(q)), |questions|)] else [])
                 + RatioViolation(Ratios(questions))
  {
    FittedCounts(questions);
    NoneLongest(|questions|, Ids(questions, q => StandsOutShort(q)), Ratios(questions));
  }

  lemma NoneLongest(sample: nat, shortest: seq<string>, ratios: seq<real>)
    ensures ViolationsFrom(sample, [], shortest, ratios) ==
            if sample < 5 then []
            else (if 5 * |shortest| > 2 * sample then [Share(ShortestOption, shortest, sample)] else [])
                 + RatioViolation(ratios)
  {
    if sample >= 5 {
      TooManyIff(0, sample);
      TooManyIff(|shortest|, sample);
    }
  }

  /** A bank at its target lengths whose answers all have eight characters or more
      passes the linter's length thresholds. */
  lemma FittedBankPasses(questions: seq<Question>)
    requires FittedBank(questions) && forall i :: 0 <= i < |questions| ==> |questions[i].correct[0]| >= 8
    ensures ViolationsOf(questions) == []
  {
    FittedBankShares(questions);
    NoneBrief(questions);
    if |questions| >= 5 {
      FittedRatios(questions);
      MeanInBand(Ratios(questions));
    }
  }

  lemma {:induction false} NoneBrief(questions: seq<Question>)
    requires forall i :: 0 <= i < |questions| ==> questions[i].correct != [] && |questions[i].correct[0]| >= 8
    ensures Brief(questions) == 0
  {
    if questions != [] {
      NoneBrief(questions[..|questions| - 1]);
    }
  }
}
