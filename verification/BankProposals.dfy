/** `propose_balance` and its second pass: lengthen the longest distractor by the
    shortest hedge that reaches past the answer. */
module BankProposals {
  import opened Options
  import opened BankBalance
  import opened BankRebalance

  const HEDGES := [
    ", in practice",
    ", as a general rule",
    ", in most ordinary cases",
    ", which is the usual assumption here",
    ", at least as it is normally understood on site",
    ", which is what most people would reasonably expect to happen"]

  function Longest(rows: seq<Target>): (i: nat)
    requires rows != []
    ensures i < |rows|
    ensures forall j :: 0 <= j < |rows| ==> rows[j].now <= rows[i].now
    ensures forall j :: 0 <= j < i ==> rows[j].now < rows[i].now
  {
    if |rows| == 1 then 0
    else
      var i := Longest(rows[..|rows| - 1]);
      assert forall j :: 0 <= j < |rows| - 1 ==> rows[j] == rows[..|rows| - 1][j];
      if rows[i].now < rows[|rows| - 1].now then |rows| - 1 else i
  }

  function FirstReaching(hedges: seq<string>, needed: nat): (h: Option<string>)
    ensures h.None? <==> forall i :: 0 <= i < |hedges| ==> |hedges[i]| < needed
    ensures h.Some? ==> h.value in hedges && |h.value| >= needed
  {
    if hedges == [] then None
    else if |hedges[0]| >= needed then Some(hedges[0])
    else
      var h := FirstReaching(hedges[1..], needed);
      assert forall i :: 0 <= i < |hedges| - 1 ==> hedges[1..][i] == hedges[i + 1];
      assert h.None? ==> forall i :: 0 <= i < |hedges| ==> i == 0 || hedges[i] == hedges[1..][i - 1];
      h
  }

  function StripDots(s: string): (r: string)
    ensures r <= s && |r| + Dots(s) == |s|
  {
    if s != [] && s[|s| - 1] == '.' then StripDots(s[..|s| - 1]) else s
  }

  /** How many full stops the text ends with. */
  function Dots(s: string): nat {
    if s != [] && s[|s| - 1] == '.' then 1 + Dots(s[..|s| - 1]) else 0
  }

  function ProposalOf(row: Targets, hedges: seq<string>): Option<Proposal> {
    if row.distractors == [] then None
    else
      var longest := row.distractors[Longest(row.distractors)];
      if longest.now > row.answerLen then None
      else
        var needed := row.answerLen - longest.now + 1;
        var hedge := FirstReaching(hedges, needed);
        Some(Proposal(row.id, longest.text, needed,
                      if hedge.None? then None else Some(StripDots(longest.text) + hedge.value)))
  }

  function ProposalFor(q: Question, hedges: seq<string>): Option<Proposal> {
    if TargetsFor(q).None? then None else ProposalOf(TargetsFor(q).value, hedges)
  }

  lemma {:induction false} CollectTwice(questions: seq<Question>, hedges: seq<string>)
    ensures Collect(Collect(questions, q => TargetsFor(q)), row => ProposalOf(row, hedges)) ==
            Collect(questions, q => ProposalFor(q, hedges))
  {
    if questions != [] {
      var init, q := questions[..|questions| - 1], questions[|questions| - 1];
      CollectTwice(init, hedges);
      if TargetsFor(q).Some? {
        var rows := Collect(init, q => TargetsFor(q)) + [TargetsFor(q).value];
        assert rows == Collect(questions, q => TargetsFor(q));
        assert rows[..|rows| - 1] == Collect(init, q => TargetsFor(q));
      } else {
        assert Collect(questions, q => TargetsFor(q)) == Collect(init, q => TargetsFor(q));
      }
    }
  }

  lemma CollectNext(rows: seq<Targets>, n: nat, hedges: seq<string>)
    requires n < |rows|
    ensures var p := ProposalOf(rows[n], hedges);
            Collect(rows[..n + 1], row => ProposalOf(row, hedges)) ==
            Collect(rows[..n], row => ProposalOf(row, hedges)) + if p.Some? then [p.value] else []
  {
    assert rows[..n + 1][..n] == rows[..n];
  }

  method ProposeBalance(questions: seq<Question>, hedges: seq<string>) returns (proposals: seq<Proposal>)
    ensures proposals == Collect(questions, q => ProposalFor(q, hedges))
  {
    proposals := [];
    var rows := BalanceTargets(questions);
    var n := 0;
    while n < |rows|
      invariant n <= |rows|
      invariant proposals == Collect(rows[..n], row => ProposalOf(row, hedges))
    {
      var row := rows[n];
      CollectNext(rows, n, hedges);
      n := n + 1;
      if row.distractors == [] { continue; }
      var longest := row.distractors[Longest(row.distractors)];
      if longest.now > row.answerLen { continue; }
      var needed := row.answerLen - longest.now + 1;
      var hedge := FirstReaching(hedges, needed);
      if hedge.None? {
        proposals := proposals + [Proposal(row.id, longest.text, needed, None)];
        continue;
      }
      proposals := proposals + [Proposal(row.id, longest.text, needed, Some(StripDots(longest.text) + hedge.value))];
    }
    assert rows[..n] == rows;
    CollectTwice(questions, hedges);
  }

  // ---- What is proposed ----

  lemma ZippedLongest(ordered: seq<string>, targets: seq<nat>, a: nat, distractors: seq<string>)
    requires ByLength(ordered) && multiset(ordered) == multiset(distractors) && ordered != [] && targets != []
    requires StrictlyLongest(a, distractors) || StrictlyShortest(a, distractors)
    ensures var rows := Zip(ordered, targets);
            && rows != [] && rows[Longest(rows)].text in distractors
            && rows[Longest(rows)].now == |rows[Longest(rows)].text|
            && (StrictlyLongest(a, distractors) ==> rows[Longest(rows)].now < a)
            && (StrictlyShortest(a, distractors) ==> rows[Longest(rows)].now > a)
  {
    var rows := Zip(ordered, targets);
    var j := Found(ordered, distractors, Longest(rows));
  }

  lemma RowLongest(q: Question)
    requires TargetsFor(q).Some?
    ensures Eligible(q)
    ensures var (row, distractors) := (TargetsFor(q).value, Others(q.options, q.correct[0]));
            && row.id == q.id && row.answerLen == |q.correct[0]| && row.distractors != []
            && var longest := row.distractors[Longest(row.distractors)];
            && longest.text in distractors && longest.text != q.correct[0] && longest.now == |longest.text|
            && (longest.now < row.answerLen <==> StrictlyLongest(row.answerLen, distractors))
            && (longest.now > row.answerLen <==> !StrictlyLongest(row.answerLen, distractors))
  {
    var a, distractors := |q.correct[0]|, Others(q.options, q.correct[0]);
    var targets := SortNumbers(RawTargets(a, |distractors|));
    assert |targets| == Lower(|distractors|, 5);
    SortPermutes(distractors);
    ZippedLongest(SortByLength(distractors), targets, a, distractors);
    FilterContents(q.options, o => o != q.correct[0]);
  }

  /** A proposal is made exactly when the answer is strictly longest. */
  lemma ProposedIff(q: Question, hedges: seq<string>)
    ensures ProposalFor(q, hedges).Some? <==>
            Eligible(q) && StrictlyLongest(|q.correct[0]|, Others(q.options, q.correct[0]))
  {
    if TargetsFor(q).Some? {
      RowLongest(q);
    }
  }

  /** It edits a distractor, never the answer, by the first hedge that reaches. */
  lemma ProposalContents(q: Question, hedges: seq<string>)
    requires ProposalFor(q, hedges).Some?
    ensures Eligible(q)
    ensures var p := ProposalFor(q, hedges).value;
            && p.id == q.id && p.option in Others(q.options, q.correct[0]) && p.option != q.correct[0]
            && p.needed == |q.correct[0]| - |p.option| + 1
            && p.suggestion == match FirstReaching(hedges, p.needed)
                               case None => None
                               case Some(hedge) => Some(StripDots(p.option) + hedge)
  {
    RowLongest(q);
    RowProposal(TargetsFor(q).value, hedges);
  }

  lemma RowProposal(row: Targets, hedges: seq<string>)
    requires ProposalOf(row, hedges).Some?
    ensures row.distractors != []
    ensures var (p, longest) := (ProposalOf(row, hedges).value, row.distractors[Longest(row.distractors)]);
            && p.id == row.id && p.option == longest.text
            && longest.now <= row.answerLen && p.needed == row.answerLen - longest.now + 1
            && p.suggestion == match FirstReaching(hedges, p.needed)
                               case None => None
                               case Some(hedge) => Some(StripDots(p.option) + hedge)
  {
  }

  /** The hedges are listed by length, so the first that reaches is the shortest. */
  lemma HedgeIsShortest(needed: nat)
    ensures ByLength(HEDGES)
    ensures FirstReaching(HEDGES, needed).Some? ==>
              forall h :: h in HEDGES && |h| >= needed ==> |FirstReaching(HEDGES, needed).value| <= |h|
  {
    FirstIsShortest(HEDGES, needed);
  }

  lemma {:induction false} FirstIsShortest(hedges: seq<string>, needed: nat)
    requires ByLength(hedges)
    ensures FirstReaching(hedges, needed).Some? ==>
              forall h :: h in hedges && |h| >= needed ==> |FirstReaching(hedges, needed).value| <= |h|
  {
    if hedges != [] && |hedges[0]| < needed {
      FirstIsShortest(hedges[1..], needed);
      assert forall h :: h in hedges ==> h == hedges[0] || h in hedges[1..];
    }
  }

  // ---- Applying it ----

  function Replace(options: seq<string>, from: string, to: string): (r: seq<string>)
    ensures |r| == |options| && forall i :: 0 <= i < |r| ==> r[i] == if options[i] == from then to else options[i]
  {
    seq(|options|, i requires 0 <= i < |options| => if options[i] == from then to else options[i])
  }

  function Edited(q: Question, hedges: seq<string>): Question {
    var p := ProposalFor(q, hedges);
    if p.None? || p.value.suggestion.None? then q
    else q.(options := Replace(q.options, p.value.option, p.value.suggestion.value))
  }

  lemma OthersAppend(options: seq<string>, o: string, answer: string)
    ensures Others(options + [o], answer) == Others(options, answer) + if o != answer then [o] else []
  {
    assert (options + [o])[..|options|] == options;
  }

  lemma ReplaceAppend(options: seq<string>, o: string, from: string, to: string)
    ensures Replace(options + [o], from, to) == Replace(options, from, to) + [if o == from then to else o]
  {
  }

  lemma {:induction false} OthersReplaced(options: seq<string>, from: string, to: string, answer: string)
    requires from != answer && to != answer
    ensures Others(Replace(options, from, to), answer) == Replace(Others(options, answer), from, to)
  {
    if options != [] {
      var init, o := options[..|options| - 1], options[|options| - 1];
      var o' := if o == from then to else o;
      assert options == init + [o];
      OthersReplaced(init, from, to, answer);
      ReplaceAppend(init, o, from, to);
      OthersAppend(init, o, answer);
      OthersAppend(Replace(init, from, to), o', answer);
      assert Replace(options, from, to) == Replace(init, from, to) + [o'];
      if o != answer {
        ReplaceAppend(Others(init, answer), o, from, to);
      } else {
        assert Others(options, answer) == Others(init, answer) + [] == Others(init, answer);
      }
    }
  }

  lemma {:induction false} OthersMerged(options: seq<string>, from: string, answer: string)
    requires from != answer
    ensures Others(Replace(options, from, answer), answer) == Others(Others(options, answer), from)
  {
    if options == [] {
      assert Replace(options, from, answer) == [] && Others(options, answer) == [];
    } else {
      var init, o := options[..|options| - 1], options[|options| - 1];
      var o' := if o == from then answer else o;
      assert options == init + [o];
      OthersMerged(init, from, answer);
      ReplaceAppend(init, o, from, answer);
      OthersAppend(init, o, answer);
      OthersAppend(Replace(init, from, answer), o', answer);
      if o != answer {
        OthersAppend(Others(init, answer), o, from);
        assert Others(Replace(init, from, answer) + [o'], answer) == Others(Others(init, answer) + [o], from);
      } else {
        assert Others(options, answer) == Others(init, answer);
      }
    }
  }

  /** The exact condition under which the edit settles its question. */
  predicate Settles(q: Question, hedges: seq<string>) {
    var p := ProposalFor(q, hedges);
    if p.None? then true
    else if p.value.suggestion.None? then false
    else if p.value.suggestion.value == q.correct[0] then
      |Others(Others(q.options, q.correct[0]), p.value.option)| < 2
    else
      |FirstReaching(hedges, p.value.needed).value| >= |q.correct[0]| - |p.value.option| + Dots(p.value.option)
  }

  lemma AfterEdit(q: Question, hedges: seq<string>)
    requires ProposalFor(q, hedges).Some? && ProposalFor(q, hedges).value.suggestion.Some?
    ensures Edited(q, hedges).correct == q.correct && |Edited(q, hedges).options| == |q.options|
    ensures var p := ProposalFor(q, hedges).value;
            Others(Edited(q, hedges).options, q.correct[0]) ==
            if p.suggestion.value == q.correct[0] then Others(Others(q.options, q.correct[0]), p.option)
            else Replace(Others(q.options, q.correct[0]), p.option, p.suggestion.value)
  {
    ProposalContents(q, hedges);
    var p := ProposalFor(q, hedges).value;
    if p.suggestion.value == q.correct[0] {
      OthersMerged(q.options, p.option, q.correct[0]);
    } else {
      OthersReplaced(q.options, p.option, p.suggestion.value, q.correct[0]);
    }
  }

  /** A second pass proposes nothing for a question exactly when its edit settles. */
  lemma SecondPassIff(q: Question, hedges: seq<string>)
    ensures ProposalFor(Edited(q, hedges), hedges).None? <==> Settles(q, hedges)
  {
    var p := ProposalFor(q, hedges);
    if p.Some? && p.value.suggestion.Some? {
      ProposedIff(q, hedges);
      ProposalContents(q, hedges);
      ProposedIff(Edited(q, hedges), hedges);
      AfterEdit(q, hedges);
      var distractors := Others(q.options, q.correct[0]);
      if p.value.suggestion.value == q.correct[0] {
        FilterContents(distractors, o => o != p.value.option);
        OnlyShorter(|q.correct[0]|, distractors, p.value.option);
      } else {
        OneReplaced(|q.correct[0]|, distractors, p.value.option, p.value.suggestion.value);
      }
    }
  }

  lemma OnlyShorter(a: nat, distractors: seq<string>, option: string)
    requires StrictlyLongest(a, distractors)
    ensures StrictlyLongest(a, Others(distractors, option))
  {
    FilterContents(distractors, o => o != option);
    var rest := Others(distractors, option);
    forall i | 0 <= i < |rest| ensures |rest[i]| < a {
      assert rest[i] in distractors;
    }
  }

  lemma OneReplaced(a: nat, distractors: seq<string>, option: string, suggestion: string)
    requires StrictlyLongest(a, distractors) && option in distractors
    ensures StrictlyLongest(a, Replace(distractors, option, suggestion)) <==> |suggestion| < a
  {
    var after := Replace(distractors, option, suggestion);
    var i :| 0 <= i < |distractors| && distractors[i] == option;
    assert after[i] == suggestion;
  }

  predicate OnlyText(options: seq<string>, text: string) {
    forall i :: 0 <= i < |options| ==> options[i] == text
  }

  lemma ReplacedShortest(a: nat, distractors: seq<string>, option: string, suggestion: string)
    requires StrictlyLongest(a, distractors) && option in distractors
    ensures StrictlyShortest(a, Replace(distractors, option, suggestion)) <==>
            OnlyText(distractors, option) && |suggestion| > a
  {
    var after := Replace(distractors, option, suggestion);
    var i :| 0 <= i < |distractors| && distractors[i] == option;
    assert after[i] == suggestion;
    if !OnlyText(distractors, option) {
      var j :| 0 <= j < |distractors| && distractors[j] != option;
      assert after[j] == distractors[j];
    }
  }

  lemma RemainingShortest(a: nat, distractors: seq<string>, option: string)
    requires StrictlyLongest(a, distractors)
    ensures StrictlyLongest(a, Others(distractors, option))
    ensures StrictlyShortest(a, Others(distractors, option)) <==> OnlyText(distractors, option)
  {
    OnlyShorter(a, distractors, option);
    FilterContents(distractors, o => o != option);
    var rest := Others(distractors, option);
    if rest != [] {
      assert rest[0] in rest;
    }
    if !OnlyText(distractors, option) {
      var j :| 0 <= j < |distractors| && distractors[j] != option;
      assert distractors[j] in rest;
    }
  }

  /** Exactly when the edit leaves the answer strictly longest or strictly shortest,
      for every suggestion: too short, or written over every distractor. A suggestion
      that spells the answer only takes distractors away. */
  lemma EditExtremes(q: Question, hedges: seq<string>)
    requires ProposalFor(q, hedges).Some? && ProposalFor(q, hedges).value.suggestion.Some?
    ensures var p, a := ProposalFor(q, hedges).value, |q.correct[0]|;
            var (before, after) := (Others(q.options, q.correct[0]), Others(Edited(q, hedges).options, q.correct[0]));
            var spells := p.suggestion.value == q.correct[0];
            && (StrictlyLongest(a, after) <==> spells || |p.suggestion.value| < a)
            && (StrictlyShortest(a, after) <==>
                  OnlyText(before, p.option) && (spells || |p.suggestion.value| > a))
  {
    ProposedIff(q, hedges);
    ProposalContents(q, hedges);
    AfterEdit(q, hedges);
    var p := ProposalFor(q, hedges).value;
    var a, before := |q.correct[0]|, Others(q.options, q.correct[0]);
    if p.suggestion.value == q.correct[0] {
      RemainingShortest(a, before, p.option);
    } else {
      OneReplaced(a, before, p.option, p.suggestion.value);
      ReplacedShortest(a, before, p.option, p.suggestion.value);
    }
  }

  /** With at most one trailing full stop and a suggestion that is not the answer
      itself the edit settles and the answer is not left strictly longest; it is
      left strictly shortest exactly when all its distractors have one text and the
      suggestion is longer than the answer. */
  lemma EditBalances(q: Question, hedges: seq<string>)
    requires ProposalFor(q, hedges).Some? && ProposalFor(q, hedges).value.suggestion.Some?
    requires Dots(ProposalFor(q, hedges).value.option) <= 1
             && ProposalFor(q, hedges).value.suggestion.value != q.correct[0]
    ensures Settles(q, hedges)
    ensures var p, a := ProposalFor(q, hedges).value, |q.correct[0]|;
            var after := Others(Edited(q, hedges).options, q.correct[0]);
            && !StrictlyLongest(a, after)
            && (StrictlyShortest(a, after) <==>
                  OnlyText(Others(q.options, q.correct[0]), p.option) && |p.suggestion.value| > a)
  {
    EditExtremes(q, hedges);
    ProposalContents(q, hedges);
  }

  // ---- Two questions the tool does not settle ----

  /** A question whose distractors are one text twice. */
  predicate Twin(q: Question, answer: string, text: string) {
    q.options == [answer, text, text] && q.correct == [answer] && |text| < |answer|
  }

  lemma AnswerFirst(answer: string, a: string, b: string)
    requires answer != a && answer != b
    ensures Others([answer, a, b], answer) == [a, b]
  {
    OthersAppend([answer, a], b, answer);
    OthersAppend([answer], a, answer);
    OthersAppend([], answer, answer);
    assert [] + [answer] == [answer] && [answer] + [a] == [answer, a] && [answer, a, b] == [answer, a] + [b];
    assert Others([], answer) == [];
  }

  lemma TwinStandsOut(q: Question, answer: string, text: string)
    requires Twin(q, answer, text)
    ensures q.correct == [answer] && q.correct[0] == answer && Eligible(q)
    ensures OnlyText(Others(q.options, answer), text) && StrictlyLongest(|answer|, Others(q.options, answer))
  {
    AnswerFirst(answer, text, text);
  }

  /** What is proposed when an answer is strictly longest over a single text. */
  lemma OnlyTextIsProposed(q: Question, hedges: seq<string>, text: string) returns (p: Proposal)
    requires Eligible(q) && StrictlyLongest(|q.correct[0]|, Others(q.options, q.correct[0]))
    requires OnlyText(Others(q.options, q.correct[0]), text)
    ensures ProposalFor(q, hedges) == Some(p) && p.option == text && p.needed == |q.correct[0]| - |text| + 1
    ensures p.suggestion == match FirstReaching(hedges, p.needed)
                            case None => None
                            case Some(hedge) => Some(StripDots(text) + hedge)
  {
    ProposedIff(q, hedges);
    ProposalContents(q, hedges);
    p := ProposalFor(q, hedges).value;
  }

  /** The text it then suggests. */
  lemma OnlyTextSuggestion(q: Question, hedges: seq<string>, text: string, hedge: string) returns (p: Proposal)
    requires Eligible(q) && StrictlyLongest(|q.correct[0]|, Others(q.options, q.correct[0]))
    requires OnlyText(Others(q.options, q.correct[0]), text)
    requires |text| < |q.correct[0]| && FirstReaching(hedges, |q.correct[0]| - |text| + 1) == Some(hedge)
    ensures ProposalFor(q, hedges) == Some(p) && p.option == text
    ensures p.suggestion.Some? && |p.suggestion.value| == |text| - Dots(text) + |hedge|
  {
    p := OnlyTextIsProposed(q, hedges, text);
    assert FirstReaching(hedges, p.needed) == Some(hedge);
    assert p.suggestion == Some(StripDots(text) + hedge);
    Joined(text, hedge);
  }

  lemma Joined(text: string, hedge: string)
    ensures |StripDots(text) + hedge| == |text| - Dots(text) + |hedge|
  {
  }

  predicate Overturns(q: Question, hedges: seq<string>, answer: string) {
    StrictlyShortest(|answer|, Others(Edited(q, hedges).options, answer))
  }

  /** Both are replaced by one text: when it is longer than the answer, the answer
      that was strictly longest is left strictly shortest. */
  lemma TwinOverturns(q: Question, hedges: seq<string>, answer: string, text: string, hedge: string)
    requires Twin(q, answer, text) && FirstReaching(hedges, |answer| - |text| + 1) == Some(hedge)
    requires |text| - Dots(text) + |hedge| > |answer|
    ensures StrictlyLongest(|answer|, Others(q.options, answer)) && Overturns(q, hedges, answer)
  {
    TwinStandsOut(q, answer, text);
    var p := OnlyTextSuggestion(q, hedges, text, hedge);
    Overturned(q, hedges, p, answer);
  }

  lemma Overturned(q: Question, hedges: seq<string>, p: Proposal, answer: string)
    requires ProposalFor(q, hedges) == Some(p) && p.suggestion.Some? && |p.suggestion.value| > |answer|
    requires q.correct == [answer] && OnlyText(Others(q.options, answer), p.option)
    ensures Overturns(q, hedges, answer)
  {
    assert q.correct[0] == answer;
    EditExtremes(q, hedges);
  }

  lemma FirstReaches(needed: nat)
    requires needed <= 13
    ensures FirstReaching(HEDGES, needed) == Some(", in practice")
  {
    assert HEDGES[0] == ", in practice" && |HEDGES[0]| == 13;
  }

  /** Answer "aaaa" and twice the distractor "bb": the edit makes the answer the
      strictly shortest option. */
  lemma EqualDistractorsOverturn()
    ensures var q := Question("q", "mcq", ["aaaa", "bb", "bb"], ["aaaa"]);
            StrictlyLongest(4, Others(q.options, "aaaa")) && Overturns(q, HEDGES, "aaaa")
  {
    var answer, text := "aaaa", "bb";
    FirstReaches(3);
    assert Dots(text) == 0;
    TwinOverturns(Question("q", "mcq", [answer, text, text], [answer]), HEDGES, answer, text, ", in practice");
  }

  predicate NeedsAnotherPass(q: Question, hedges: seq<string>) { ProposalFor(Edited(q, hedges), hedges).Some? }

  lemma Unsettled(q: Question, hedges: seq<string>, p: Proposal, answer: string)
    requires ProposalFor(q, hedges) == Some(p) && p.suggestion.Some? && |p.suggestion.value| < |answer|
    requires q.correct == [answer]
    ensures NeedsAnotherPass(q, hedges)
  {
    assert q.correct[0] == answer;
    ProposalContents(q, hedges);
    assert !Settles(q, hedges);
    SecondPassIff(q, hedges);
  }

  /** Full stops that the hedge does not make up for: the edit is too short, and a
      second pass proposes again. */
  lemma TwinNeedsAnotherPass(q: Question, hedges: seq<string>, answer: string, text: string, hedge: string)
    requires Twin(q, answer, text) && FirstReaching(hedges, |answer| - |text| + 1) == Some(hedge)
    requires |text| - Dots(text) + |hedge| < |answer|
    ensures NeedsAnotherPass(q, hedges)
  {
    TwinStandsOut(q, answer, text);
    var p := OnlyTextSuggestion(q, hedges, text, hedge);
    Unsettled(q, hedges, p, answer);
  }

  /** A distractor "x.." under an answer of fifteen characters is such a case. */
  lemma TwoStopsNeedAnotherPass()
    ensures NeedsAnotherPass(Question("q", "mcq", ["aaaaaaaaaaaaaaa", "x..", "x.."], ["aaaaaaaaaaaaaaa"]), HEDGES)
  {
    var answer, text := "aaaaaaaaaaaaaaa", "x..";
    FirstReaches(13);
    TwoStops(text);
    TwinNeedsAnotherPass(Question("q", "mcq", [answer, text, text], [answer]), HEDGES, answer, text, ", in practice");
  }

  lemma TwoStops(text: string)
    requires text == "x.."
    ensures Dots(text) == 2
  {
    var one := text[..2];
    assert one[..1] == "x";
    assert Dots(one[..1]) == 0;
  }

  function EditAll(questions: seq<Question>, hedges: seq<string>): (r: seq<Question>)
    ensures |r| == |questions| && forall i :: 0 <= i < |r| ==> r[i] == Edited(questions[i], hedges)
  {
    seq(|questions|, i requires 0 <= i < |questions| => Edited(questions[i], hedges))
  }

  lemma {:induction false} CollectsNothing<S, T>(s: seq<S>, f: S -> Option<T>)
    ensures Collect(s, f) == [] <==> forall i :: 0 <= i < |s| ==> f(s[i]).None?
  {
    if s != [] {
      CollectsNothing(s[..|s| - 1], f);
    }
  }

  /** For a whole bank: the second pass is silent exactly when every edit settles. */
  lemma BankSecondPassIff(questions: seq<Question>, hedges: seq<string>)
    ensures Collect(EditAll(questions, hedges), q => ProposalFor(q, hedges)) == [] <==>
            forall i :: 0 <= i < |questions| ==> Settles(questions[i], hedges)
  {
    CollectsNothing(EditAll(questions, hedges), q => ProposalFor(q, hedges));
    forall i | 0 <= i < |questions|
      ensures ProposalFor(EditAll(questions, hedges)[i], hedges).None? <==> Settles(questions[i], hedges)
    {
      SecondPassIff(questions[i], hedges);
    }
  }

  // ---- The tool and the linter agree on what stands out ----

  /** For a question with one correct answer: the linter calls it longest among
      three or more options exactly when the tool proposes an edit, the linter
      looks at its kind, and the answer is listed once. */
  lemma LinterAgrees(q: Question, hedges: seq<string>)
    requires |q.correct| == 1
    ensures StandsOutLong(q) && |q.options| >= 3 <==>
            && ProposalFor(q, hedges).Some? && q.kind != "truefalse" && q.kind != "multi"
            && multiset(q.options)[q.correct[0]] == 1
  {
    ProposedIff(q, hedges);
    CountOthers(q.options, q.correct[0]);
    if StandsOutLong(q) {
      ListedOnce(q);
    }
    if |q.options| >= 3 && multiset(q.options)[q.correct[0]] == 1 && q.kind != "truefalse" && q.kind != "multi" {
      SingleAnswer(q);
      LongestAmong(q.options, q.correct[0]);
    }
  }

  /** An answer that stands out is listed exactly once. */
  lemma ListedOnce(q: Question)
    requires |q.correct| == 1 && StandsOutLong(q)
    ensures multiset(q.options)[q.correct[0]] == 1
  {
    var answer := q.correct[0];
    FilterContents(q.options, o => o in q.correct);
    assert Chosen(q)[0] in Chosen(q);
    assert Chosen(q)[0] == answer;
    var i :| 0 <= i < |q.options| && |q.options[i]| == |answer|
      && forall j :: 0 <= j < |q.options| && j != i ==> |q.options[j]| < |q.options[i]|;
    var k :| 0 <= k < |q.options| && q.options[k] == answer;
    assert k == i;
    OnceIf(q.options, i);
  }

  lemma OnceIf(options: seq<string>, i: nat)
    requires i < |options| && forall j :: 0 <= j < |options| && j != i ==> options[j] != options[i]
    ensures multiset(options)[options[i]] == 1
  {
    var rest := options[..i] + options[i + 1..];
    assert options == options[..i] + [options[i]] + options[i + 1..];
    assert multiset(options) == multiset(rest) + multiset{options[i]};
    forall j | 0 <= j < |rest| ensures rest[j] != options[i] {
      assert rest[j] == if j < i then options[j] else options[j + 1];
    }
    assert options[i] !in rest;
  }

  /** Some option has the answer's length and every other is shorter. */
  ghost predicate Tops(options: seq<string>, a: nat) {
    exists i :: 0 <= i < |options| && |options[i]| == a
      && forall j :: 0 <= j < |options| && j != i ==> |options[j]| < |options[i]|
  }

  /** A question with one correct answer, listed once among three or more options,
      is in the linter's sample, with that answer and no other chosen. */
  lemma SingleAnswer(q: Question)
    requires |q.correct| == 1 && q.kind != "truefalse" && |q.options| >= 3
    requires multiset(q.options)[q.correct[0]] == 1
    ensures Counted(q)
    ensures forall o :: o in Chosen(q) <==> o == q.correct[0]
    ensures forall o :: o in Wrong(q) <==> o in Others(q.options, q.correct[0])
    ensures Chosen(q)[0] == q.correct[0]
  {
    assert q.correct == [q.correct[0]];
    FilterContents(q.options, o => o in q.correct);
    FilterContents(q.options, o => o !in q.correct);
    FilterContents(q.options, o => o != q.correct[0]);
    assert q.correct[0] in Chosen(q);
    AnotherOption(q.options, q.correct[0]);
    assert Chosen(q)[0] in Chosen(q);
  }

  lemma AnotherOption(options: seq<string>, answer: string)
    requires |options| >= 2 && multiset(options)[answer] == 1
    ensures Others(options, answer) != [] && Others(options, answer)[0] in Others(options, answer)
  {
    CountOthers(options, answer);
  }

  lemma LongestAmong(options: seq<string>, answer: string)
    requires multiset(options)[answer] == 1
    ensures Tops(options, |answer|) <==> StrictlyLongest(|answer|, Others(options, answer))
  {
    assert answer in multiset(options);
    var k :| 0 <= k < |options| && options[k] == answer;
    OnlyAnswer(options, k);
    FilterContents(options, o => o != answer);
    var others := Others(options, answer);
    if StrictlyLongest(|answer|, others) {
      forall j | 0 <= j < |options| && j != k ensures |options[j]| < |options[k]| {
        assert options[j] in others;
      }
    }
    if Tops(options, |answer|) {
      forall m | 0 <= m < |others| ensures |others[m]| < |answer| {
        assert others[m] in others;
        var j :| 0 <= j < |options| && options[j] == others[m];
        assert |options[k]| == |answer|;
      }
    }
  }

  lemma OnlyAnswer(options: seq<string>, k: nat)
    requires k < |options| && multiset(options)[options[k]] == 1
    ensures forall j :: 0 <= j < |options| && j != k ==> options[j] != options[k]
  {
    var rest := options[..k] + options[k + 1..];
    assert options == options[..k] + [options[k]] + options[k + 1..];
    assert multiset(options) == multiset(rest) + multiset{options[k]};
    forall j | 0 <= j < |options| && j != k ensures options[j] != options[k] {
      assert options[j] in rest by {
        if j < k { assert rest[j] == options[j]; } else { assert rest[j - 1] == options[j]; }
      }
    }
  }

  lemma {:induction false} CountOthers(options: seq<string>, answer: string)
    ensures |Others(options, answer)| + multiset(options)[answer] == |options|
  {
    if options != [] {
      var n := |options| - 1;
      CountOthers(options[..n], answer);
      assert options == options[..n] + [options[n]];
    }
  }
}
