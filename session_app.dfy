/**
 * The stand-alone test session (`App`): it flattens the loaded question bank
 * into one list of items, keeps the navigation index and the recorded answers,
 * counts the score overall and per section, and runs the countdown.
 */
module SessionApp {
  import opened Js
  import DataUtils

  // ------------------------------------------------------- the loaded bank

  datatype BankQuestion = BankQuestion(id: string, question: string, options: seq<string>, answer: string)

  /** A question of a passage or script, identified by its `question_id_in_*` key. */
  datatype BankSub = BankSub(subId: string, question: string, options: seq<string>, answer: string)

  datatype BankPassage = BankPassage(title: string, text: string, questions: seq<BankSub>)

  datatype BankScript = BankScript(title: string, script: string, audioSrc: string, questions: seq<BankSub>)

  /** `testSettings`; a missing or zero minute count is `None`/0. */
  datatype Settings = Settings(totalTimeMinutes: Option<int>, sections: seq<string>)

  datatype TestData = TestData(
    settings: Option<Settings>,
    vocabulary: seq<BankQuestion>,
    grammar: seq<BankQuestion>,
    reading: seq<BankPassage>,
    listening: seq<BankScript>)

  /** Where a flattened item came from, with the text shown beside it. */
  datatype Context = NoContext | PassageContext(title: string, text: string) | ScriptContext(title: string, script: string, audioSrc: string)

  /** One entry of `allQuestions`. */
  datatype Item = Item(id: string, questionText: string, options: seq<string>, answer: string, section: string, context: Context)

  // ----------------------------------------------------------- flattening

  function QuestionItems(qs: seq<BankQuestion>, section: string): (items: seq<Item>)
    ensures |items| == |qs|
    ensures forall k :: 0 <= k < |qs| ==>
      items[k] == Item(qs[k].id, qs[k].question, qs[k].options, qs[k].answer, section, NoContext)
  {
    seq(|qs|, k requires 0 <= k < |qs| =>
      Item(qs[k].id, qs[k].question, qs[k].options, qs[k].answer, section, NoContext))
  }

  function PassageItems(p: BankPassage): (items: seq<Item>)
    ensures |items| == |p.questions|
    ensures forall k :: 0 <= k < |p.questions| ==> items[k] == Item(p.questions[k].subId, p.questions[k].question,
      p.questions[k].options, p.questions[k].answer, "Reading Comprehension", PassageContext(p.title, p.text))
  {
    seq(|p.questions|, k requires 0 <= k < |p.questions| =>
      Item(p.questions[k].subId, p.questions[k].question, p.questions[k].options, p.questions[k].answer,
           "Reading Comprehension", PassageContext(p.title, p.text)))
  }

  function ScriptItems(s: BankScript): (items: seq<Item>)
    ensures |items| == |s.questions|
    ensures forall k :: 0 <= k < |s.questions| ==> items[k] == Item(s.questions[k].subId, s.questions[k].question,
      s.questions[k].options, s.questions[k].answer, "Listening Comprehension", ScriptContext(s.title, s.script, s.audioSrc))
  {
    seq(|s.questions|, k requires 0 <= k < |s.questions| =>
      Item(s.questions[k].subId, s.questions[k].question, s.questions[k].options, s.questions[k].answer,
           "Listening Comprehension", ScriptContext(s.title, s.script, s.audioSrc)))
  }

  /** The items of all passages, passage after passage. */
  function ReadingItems(ps: seq<BankPassage>): seq<Item> {
    if ps == [] then [] else ReadingItems(ps[..|ps| - 1]) + PassageItems(ps[|ps| - 1])
  }

  /** The items of all scripts, script after script. */
  function ListeningItems(ss: seq<BankScript>): seq<Item> {
    if ss == [] then [] else ListeningItems(ss[..|ss| - 1]) + ScriptItems(ss[|ss| - 1])
  }

  /** `prepareQuestions`' list: vocabulary, grammar, reading, listening, each in source order. */
  function Flatten(d: TestData): seq<Item> {
    QuestionItems(d.vocabulary, "Vocabulary") + QuestionItems(d.grammar, "Grammar")
    + ReadingItems(d.reading) + ListeningItems(d.listening)
  }

  function PassageQuestionCount(ps: seq<BankPassage>): nat {
    if ps == [] then 0 else PassageQuestionCount(ps[..|ps| - 1]) + |ps[|ps| - 1].questions|
  }

  function ScriptQuestionCount(ss: seq<BankScript>): nat {
    if ss == [] then 0 else ScriptQuestionCount(ss[..|ss| - 1]) + |ss[|ss| - 1].questions|
  }

  lemma {:induction false} ReadingItemsShape(ps: seq<BankPassage>)
    ensures |ReadingItems(ps)| == PassageQuestionCount(ps)
    ensures forall it :: it in ReadingItems(ps) ==>
              it.section == "Reading Comprehension"
              && exists j, k :: 0 <= j < |ps| && 0 <= k < |ps[j].questions| && it.id == ps[j].questions[k].subId
  {
    if ps != [] {
      var init := ps[..|ps| - 1];
      ReadingItemsShape(init);
      forall it | it in ReadingItems(ps)
        ensures it.section == "Reading Comprehension"
          && exists j, k :: 0 <= j < |ps| && 0 <= k < |ps[j].questions| && it.id == ps[j].questions[k].subId
      {
        if it in ReadingItems(init) {
          var j, k :| 0 <= j < |init| && 0 <= k < |init[j].questions| && it.id == init[j].questions[k].subId;
          assert ps[j] == init[j];
        } else {
          assert it in PassageItems(ps[|ps| - 1]);
          var k :| 0 <= k < |ps[|ps| - 1].questions| && PassageItems(ps[|ps| - 1])[k] == it;
          assert it.id == ps[|ps| - 1].questions[k].subId;
        }
      }
    }
  }

  lemma {:induction false} ListeningItemsShape(ss: seq<BankScript>)
    ensures |ListeningItems(ss)| == ScriptQuestionCount(ss)
    ensures forall it :: it in ListeningItems(ss) ==>
              it.section == "Listening Comprehension"
              && exists j, k :: 0 <= j < |ss| && 0 <= k < |ss[j].questions| && it.id == ss[j].questions[k].subId
  {
    if ss != [] {
      var init := ss[..|ss| - 1];
      ListeningItemsShape(init);
      forall it | it in ListeningItems(ss)
        ensures it.section == "Listening Comprehension"
          && exists j, k :: 0 <= j < |ss| && 0 <= k < |ss[j].questions| && it.id == ss[j].questions[k].subId
      {
        if it in ListeningItems(init) {
          var j, k :| 0 <= j < |init| && 0 <= k < |init[j].questions| && it.id == init[j].questions[k].subId;
          assert ss[j] == init[j];
        } else {
          assert it in ScriptItems(ss[|ss| - 1]);
          var k :| 0 <= k < |ss[|ss| - 1].questions| && ScriptItems(ss[|ss| - 1])[k] == it;
          assert it.id == ss[|ss| - 1].questions[k].subId;
        }
      }
    }
  }

  /**
   * The flattened list has one item per bank question, vocabulary items first
   * and in order, then grammar; reading and listening items take their id
   * from the sub-question's own key.
   */
  lemma FlattenShape(d: TestData)
    ensures |Flatten(d)| == |d.vocabulary| + |d.grammar| + PassageQuestionCount(d.reading) + ScriptQuestionCount(d.listening)
    ensures forall k :: 0 <= k < |d.vocabulary| ==> Flatten(d)[k].id == d.vocabulary[k].id && Flatten(d)[k].section == "Vocabulary"
    ensures forall k :: 0 <= k < |d.grammar| ==>
      Flatten(d)[|d.vocabulary| + k].id == d.grammar[k].id && Flatten(d)[|d.vocabulary| + k].section == "Grammar"
    ensures forall it :: it in Flatten(d) && it.section == "Reading Comprehension" ==>
      exists j, k :: 0 <= j < |d.reading| && 0 <= k < |d.reading[j].questions| && it.id == d.reading[j].questions[k].subId
  {
    ReadingItemsShape(d.reading);
    ListeningItemsShape(d.listening);
    FlattenPlainPrefix(d);
    FlattenReadingOrigin(d);
  }

  /** The vocabulary items come first, then the grammar items, each in source order. */
  lemma FlattenPlainPrefix(d: TestData)
    ensures forall k :: 0 <= k < |d.vocabulary| ==> Flatten(d)[k].id == d.vocabulary[k].id && Flatten(d)[k].section == "Vocabulary"
    ensures forall k :: 0 <= k < |d.grammar| ==>
      Flatten(d)[|d.vocabulary| + k].id == d.grammar[k].id && Flatten(d)[|d.vocabulary| + k].section == "Grammar"
  {
    var v, g := QuestionItems(d.vocabulary, "Vocabulary"), QuestionItems(d.grammar, "Grammar");
    var rest := ReadingItems(d.reading) + ListeningItems(d.listening);
    assert Flatten(d) == (v + g) + rest;
    forall k | 0 <= k < |d.grammar|
      ensures Flatten(d)[|d.vocabulary| + k] == g[k]
    {
      assert ((v + g) + rest)[|v| + k] == g[k];
    }
  }

  /** An item labelled as reading comes from some passage's question. */
  lemma FlattenReadingOrigin(d: TestData)
    ensures forall it :: it in Flatten(d) && it.section == "Reading Comprehension" ==>
      exists j, k :: 0 <= j < |d.reading| && 0 <= k < |d.reading[j].questions| && it.id == d.reading[j].questions[k].subId
  {
    ReadingItemsShape(d.reading);
    ListeningItemsShape(d.listening);
    var v, g := QuestionItems(d.vocabulary, "Vocabulary"), QuestionItems(d.grammar, "Grammar");
    var r, l := ReadingItems(d.reading), ListeningItems(d.listening);
    assert Flatten(d) == v + g + r + l;
    assert forall it :: it in v ==> it.section == "Vocabulary";
    assert forall it :: it in g ==> it.section == "Grammar";
  }

  /** Appends the items of one plain question list, as the first two `forEach` loops do. */
  method PushQuestions(prepared: seq<Item>, qs: seq<BankQuestion>, section: string) returns (out: seq<Item>)
    ensures out == prepared + QuestionItems(qs, section)
  {
    out := prepared;
    var i := 0;
    while i < |qs|
      invariant 0 <= i <= |qs|
      invariant out == prepared + QuestionItems(qs[..i], section)
    {
      var q := qs[i];
      out := out + [Item(q.id, q.question, q.options, q.answer, section, NoContext)];
      assert QuestionItems(qs[..i + 1], section) == QuestionItems(qs[..i], section) + [out[|out| - 1]];
      i := i + 1;
    }
    assert qs[..i] == qs;
  }

  /** Appends the items of every passage, the nested `forEach` over passages and their questions. */
  method PushPassages(prepared: seq<Item>, ps: seq<BankPassage>) returns (out: seq<Item>)
    ensures out == prepared + ReadingItems(ps)
  {
    out := prepared;
    var j := 0;
    while j < |ps|
      invariant 0 <= j <= |ps|
      invariant out == prepared + ReadingItems(ps[..j])
    {
      var p := ps[j];
      var k := 0;
      ghost var before := out;
      while k < |p.questions|
        invariant 0 <= k <= |p.questions|
        invariant out == before + PassageItems(p)[..k]
      {
        var q := p.questions[k];
        out := out + [Item(q.subId, q.question, q.options, q.answer, "Reading Comprehension", PassageContext(p.title, p.text))];
        assert PassageItems(p)[..k + 1] == PassageItems(p)[..k] + [PassageItems(p)[k]];
        k := k + 1;
      }
      assert PassageItems(p)[..k] == PassageItems(p);
      assert ps[..j + 1][..j] == ps[..j];
      j := j + 1;
    }
    assert ps[..j] == ps;
  }

  /** Appends the items of every script. */
  method PushScripts(prepared: seq<Item>, ss: seq<BankScript>) returns (out: seq<Item>)
    ensures out == prepared + ListeningItems(ss)
  {
    out := prepared;
    var j := 0;
    while j < |ss|
      invariant 0 <= j <= |ss|
      invariant out == prepared + ListeningItems(ss[..j])
    {
      var s := ss[j];
      var k := 0;
      ghost var before := out;
      while k < |s.questions|
        invariant 0 <= k <= |s.questions|
        invariant out == before + ScriptItems(s)[..k]
      {
        var q := s.questions[k];
        out := out + [Item(q.subId, q.question, q.options, q.answer, "Listening Comprehension",
                           ScriptContext(s.title, s.script, s.audioSrc))];
        assert ScriptItems(s)[..k + 1] == ScriptItems(s)[..k] + [ScriptItems(s)[k]];
        k := k + 1;
      }
      assert ScriptItems(s)[..k] == ScriptItems(s);
      assert ss[..j + 1][..j] == ss[..j];
      j := j + 1;
    }
    assert ss[..j] == ss;
  }

  // -------------------------------------------------------------- scoring

  /** Answer i counts when it is set and equals the item's answer. */
  predicate Correct(items: seq<Item>, answers: seq<Option<string>>, i: nat)
    requires i < |items| && i < |answers|
  {
    answers[i].Some? && answers[i].value == items[i].answer
  }

  /** Number of correct answers among the first n. */
  function CorrectCount(items: seq<Item>, answers: seq<Option<string>>, n: nat): (c: nat)
    requires n <= |items| && n <= |answers|
    ensures c <= n
  {
    if n == 0 then 0 else CorrectCount(items, answers, n - 1) + if Correct(items, answers, n - 1) then 1 else 0
  }

  /** A fresh test (every answer null) scores nothing. */
  lemma {:induction false} FreshAnswersScoreZero(items: seq<Item>, n: nat)
    requires n <= |items|
    ensures CorrectCount(items, NoAnswers(|items|), n) == 0
  {
    if n > 0 {
      FreshAnswersScoreZero(items, n - 1);
    }
  }

  /** Answering every item with its key scores every item. */
  lemma {:induction false} AllCorrectScoresAll(items: seq<Item>, answers: seq<Option<string>>, n: nat)
    requires n <= |items| == |answers|
    requires forall k :: 0 <= k < |items| ==> answers[k] == Some(items[k].answer)
    ensures CorrectCount(items, answers, n) == n
  {
    if n > 0 {
      AllCorrectScoresAll(items, answers, n - 1);
    }
  }

  /** Changing one answer moves the score by at most one. */
  lemma {:induction false} OneAnswerMovesScoreByOne(items: seq<Item>, answers: seq<Option<string>>, i: nat, a: Option<string>, n: nat)
    requires n <= |items| == |answers| && i < |answers|
    ensures var before, after := CorrectCount(items, answers, n), CorrectCount(items, answers[i := a], n);
      before - 1 <= after <= before + 1
    ensures i >= n ==> CorrectCount(items, answers[i := a], n) == CorrectCount(items, answers, n)
  {
    if n > 0 {
      OneAnswerMovesScoreByOne(items, answers, i, a, n - 1);
      if i != n - 1 {
        assert answers[i := a][n - 1] == answers[n - 1];
      } else {
        ScoreIgnoresLater(items, answers, answers[i := a], n - 1);
      }
    }
  }

  /** The count over the first n answers only looks at those answers. */
  lemma {:induction false} ScoreIgnoresLater(items: seq<Item>, answers: seq<Option<string>>, other: seq<Option<string>>, n: nat)
    requires n <= |items| && n <= |answers| && n <= |other|
    requires answers[..n] == other[..n]
    ensures CorrectCount(items, answers, n) == CorrectCount(items, other, n)
  {
    if n > 0 {
      assert answers[n - 1] == answers[..n][n - 1] == other[..n][n - 1] == other[n - 1];
      assert answers[..n - 1] == answers[..n][..n - 1];
      assert other[..n - 1] == other[..n][..n - 1];
      ScoreIgnoresLater(items, answers, other, n - 1);
    }
  }

  /** Number of the first n items in a section. */
  function SectionTotal(items: seq<Item>, s: string, n: nat): (c: nat)
    requires n <= |items|
    ensures c <= n
  {
    if n == 0 then 0 else SectionTotal(items, s, n - 1) + if items[n - 1].section == s then 1 else 0
  }

  /** Number of correct answers among the first n items of a section. */
  function SectionCorrect(items: seq<Item>, answers: seq<Option<string>>, s: string, n: nat): (c: nat)
    requires n <= |items| && n <= |answers|
    ensures c <= SectionTotal(items, s, n)
  {
    if n == 0 then 0
    else SectionCorrect(items, answers, s, n - 1)
         + if items[n - 1].section == s && Correct(items, answers, n - 1) then 1 else 0
  }

  /** The names of xs, first occurrences only, in order: the key order of an object filled from xs. */
  function Dedup(xs: seq<string>): (r: seq<string>)
    ensures forall x :: x in r <==> x in xs
    ensures forall a, b :: 0 <= a < b < |r| ==> r[a] != r[b]
  {
    if xs == [] then []
    else
      var init := Dedup(xs[..|xs| - 1]);
      assert forall x :: x in xs <==> x in xs[..|xs| - 1] || x == xs[|xs| - 1];
      if xs[|xs| - 1] in init then init else init + [xs[|xs| - 1]]
  }

  /**
   * Sections outside the configured list that received a correct answer among
   * the first n items, in order of their first correct answer: the keys that
   * `sectionScores[q.section]++` adds.
   */
  function StrayKeys(items: seq<Item>, answers: seq<Option<string>>, sections: seq<string>, n: nat): (r: seq<string>)
    requires n <= |items| && n <= |answers|
    ensures forall x :: x in r ==> x !in sections
    ensures forall x :: x in r <==> x !in sections && SectionCorrect(items, answers, x, n) > 0
    ensures forall a, b :: 0 <= a < b < |r| ==> r[a] != r[b]
  {
    if n == 0 then []
    else
      var init := StrayKeys(items, answers, sections, n - 1);
      var s := items[n - 1].section;
      if Correct(items, answers, n - 1) && s !in sections && s !in init then init + [s] else init
  }

  /** One entry of the section breakdown. */
  datatype SectionEntry = SectionEntry(name: string, score: Num, total: Num, percentage: nat)

  /**
   * `total > 0 ? Math.round(score / total * 100) : 0`; NaN is not above 0.
   * A section's score and total are both numbers or both NaN, so the
   * `score.Val?` test never fails once the total is a positive number.
   */
  function SectionPercent(score: Num, total: Num): nat {
    if total.Val? && total.v > 0 && score.Val? then RoundRatio(score.v, total.v, 100)
    else 0
  }

  /** What the breakdown reports for one key. */
  function EntryFor(items: seq<Item>, answers: seq<Option<string>>, sections: seq<string>, s: string): SectionEntry
    requires |items| == |answers|
  {
    if s in sections then
      var score, total := SectionCorrect(items, answers, s, |items|), SectionTotal(items, s, |items|);
      SectionEntry(s, Val(score), Val(total), SectionPercent(Val(score), Val(total)))
    else SectionEntry(s, NaN, NaN, 0)
  }

  /** `calculateSectionScores`: configured sections first, then stray sections with a correct answer. */
  function SectionScores(items: seq<Item>, answers: seq<Option<string>>, sections: seq<string>): seq<SectionEntry>
    requires |items| == |answers|
  {
    var keys := Dedup(sections) + StrayKeys(items, answers, sections, |items|);
    seq(|keys|, k requires 0 <= k < |keys| => EntryFor(items, answers, sections, keys[k]))
  }

  /** `undefined++` is NaN; a number goes up by one. */
  function Incr(m: map<string, Num>, key: string): Num {
    if key in m then m[key].Plus(Val(1)) else NaN
  }

  /** The score keys, in insertion order, after the first i items. */
  ghost predicate KeysTallied(items: seq<Item>, answers: seq<Option<string>>, sections: seq<string>, i: nat,
                              keys: seq<string>, scores: map<string, Num>)
    requires i <= |items| == |answers|
  {
    && keys == Dedup(sections) + StrayKeys(items, answers, sections, i)
    && (forall s :: s in keys <==> s in scores)
  }

  /** The configured sections' counts after the first i items. */
  ghost predicate CountsTallied(items: seq<Item>, answers: seq<Option<string>>, sections: seq<string>, i: nat,
                                scores: map<string, Num>, totals: map<string, Num>)
    requires i <= |items| == |answers|
  {
    && (forall s :: s in sections ==> s in scores && scores[s] == Val(SectionCorrect(items, answers, s, i)))
    && (forall s :: s in sections ==> s in totals && totals[s] == Val(SectionTotal(items, s, i)))
  }

  /** The sections outside the configuration after the first i items: present once seen, and NaN. */
  ghost predicate StrayTallied(items: seq<Item>, answers: seq<Option<string>>, sections: seq<string>, i: nat,
                               scores: map<string, Num>, totals: map<string, Num>)
    requires i <= |items| == |answers|
  {
    && (forall s :: s !in sections ==> (s in totals <==> SectionTotal(items, s, i) > 0))
    && (forall s :: s !in sections ==> (s in scores <==> SectionCorrect(items, answers, s, i) > 0))
    && (forall s :: s !in sections && s in totals ==> totals[s] == NaN)
    && (forall s :: s !in sections && s in scores ==> scores[s] == NaN)
  }

  /** The dictionaries after the first i items have been tallied. */
  ghost predicate Tallied(items: seq<Item>, answers: seq<Option<string>>, sections: seq<string>, i: nat,
                          keys: seq<string>, scores: map<string, Num>, totals: map<string, Num>)
    requires i <= |items| == |answers|
  {
    && KeysTallied(items, answers, sections, i, keys, scores)
    && CountsTallied(items, answers, sections, i, scores, totals)
    && StrayTallied(items, answers, sections, i, scores, totals)
  }

  lemma KeysStep(items: seq<Item>, answers: seq<Option<string>>, sections: seq<string>, i: nat,
                 keys: seq<string>, scores: map<string, Num>, keys': seq<string>, scores': map<string, Num>)
    requires i < |items| == |answers|
    requires KeysTallied(items, answers, sections, i, keys, scores)
    requires forall s :: s in sections ==> s in scores
    requires keys' == if Correct(items, answers, i) && items[i].section !in scores then keys + [items[i].section] else keys
    requires forall s :: s in scores' <==> s in scores || (Correct(items, answers, i) && s == items[i].section)
    ensures KeysTallied(items, answers, sections, i + 1, keys', scores')
  {
    var stray := StrayKeys(items, answers, sections, i);
    assert items[i].section !in scores <==> items[i].section !in sections && items[i].section !in stray;
    if Correct(items, answers, i) && items[i].section !in scores {
      assert keys' == Dedup(sections) + (stray + [items[i].section]);
    }
  }

  lemma CountsStep(items: seq<Item>, answers: seq<Option<string>>, sections: seq<string>, i: nat,
                   scores: map<string, Num>, totals: map<string, Num>, scores': map<string, Num>, totals': map<string, Num>)
    requires i < |items| == |answers|
    requires CountsTallied(items, answers, sections, i, scores, totals)
    requires scores' == if Correct(items, answers, i) then scores[items[i].section := Incr(scores, items[i].section)] else scores
    requires totals' == totals[items[i].section := Incr(totals, items[i].section)]
    ensures CountsTallied(items, answers, sections, i + 1, scores', totals')
  {
  }

  lemma StrayStep(items: seq<Item>, answers: seq<Option<string>>, sections: seq<string>, i: nat,
                  scores: map<string, Num>, totals: map<string, Num>, scores': map<string, Num>, totals': map<string, Num>)
    requires i < |items| == |answers|
    requires StrayTallied(items, answers, sections, i, scores, totals)
    requires scores' == if Correct(items, answers, i) then scores[items[i].section := Incr(scores, items[i].section)] else scores
    requires totals' == totals[items[i].section := Incr(totals, items[i].section)]
    ensures StrayTallied(items, answers, sections, i + 1, scores', totals')
  {
  }

  /** The section tallies: the two dictionary loops of `calculateSectionScores`. */
  method TallySections(items: seq<Item>, answers: seq<Option<string>>, sections: seq<string>)
      returns (keys: seq<string>, scores: map<string, Num>, totals: map<string, Num>)
    requires |items| == |answers|
    ensures Tallied(items, answers, sections, |items|, keys, scores, totals)
  {
    keys, scores, totals := SeedSections(sections);
    SeedTallied(items, answers, sections, keys, scores, totals);
    var i := 0;
    while i < |items|
      invariant 0 <= i <= |items|
      invariant Tallied(items, answers, sections, i, keys, scores, totals)
    {
      keys, scores, totals := TallyItem(items, answers, sections, i, keys, scores, totals);
      i := i + 1;
    }
  }

  /** The body of the second loop of `calculateSectionScores`, for item i. */
  method TallyItem(items: seq<Item>, answers: seq<Option<string>>, sections: seq<string>, i: nat,
                   keys: seq<string>, scores: map<string, Num>, totals: map<string, Num>)
      returns (keys': seq<string>, scores': map<string, Num>, totals': map<string, Num>)
    requires i < |items| == |answers|
    requires Tallied(items, answers, sections, i, keys, scores, totals)
    ensures Tallied(items, answers, sections, i + 1, keys', scores', totals')
  {
    keys', scores', totals' := keys, scores, totals;
    var section := items[i].section;
    totals' := totals'[section := Incr(totals', section)];
    if answers[i].Some? && answers[i].value == items[i].answer {
      if section !in scores' {
        keys' := keys' + [section];
      }
      scores' := scores'[section := Incr(scores', section)];
    }
    KeysStep(items, answers, sections, i, keys, scores, keys', scores');
    CountsStep(items, answers, sections, i, scores, totals, scores', totals');
    StrayStep(items, answers, sections, i, scores, totals, scores', totals');
  }

  /** Before any item: every configured section at 0, keys in first-occurrence order. */
  lemma SeedTallied(items: seq<Item>, answers: seq<Option<string>>, sections: seq<string>,
                    keys: seq<string>, scores: map<string, Num>, totals: map<string, Num>)
    requires |items| == |answers|
    requires keys == Dedup(sections)
    requires forall s :: s in scores <==> s in sections
    requires forall s :: s in totals <==> s in sections
    requires forall s :: s in scores ==> scores[s] == Val(0) && totals[s] == Val(0)
    ensures Tallied(items, answers, sections, 0, keys, scores, totals)
  {
    assert StrayKeys(items, answers, sections, 0) == [];
  }

  /** The first loop of `calculateSectionScores`: every configured section starts at 0. */
  method SeedSections(sections: seq<string>) returns (keys: seq<string>, scores: map<string, Num>, totals: map<string, Num>)
    ensures keys == Dedup(sections)
    ensures forall s :: s in scores <==> s in sections
    ensures forall s :: s in totals <==> s in sections
    ensures forall s :: s in scores ==> scores[s] == Val(0) && totals[s] == Val(0)
  {
    keys, scores, totals := [], map[], map[];
    var j := 0;
    while j < |sections|
      invariant 0 <= j <= |sections|
      invariant keys == Dedup(sections[..j])
      invariant forall s :: s in scores <==> s in sections[..j]
      invariant forall s :: s in totals <==> s in sections[..j]
      invariant forall s :: s in scores ==> scores[s] == Val(0) && totals[s] == Val(0)
    {
      assert sections[..j + 1][..j] == sections[..j];
      if sections[j] !in scores {
        keys := keys + [sections[j]];
      }
      scores := scores[sections[j] := Val(0)];
      totals := totals[sections[j] := Val(0)];
      j := j + 1;
    }
    assert sections[..j] == sections;
  }

  /** The entry the last loop of `calculateSectionScores` builds for one score key. */
  function KeyEntry(name: string, scores: map<string, Num>, totals: map<string, Num>): SectionEntry
    requires name in scores && name in totals
  {
    SectionEntry(name, scores[name], totals[name], SectionPercent(scores[name], totals[name]))
  }

  /** Once every item is tallied, a key's two dictionary values make its specified entry. */
  lemma TalliedEntry(items: seq<Item>, answers: seq<Option<string>>, sections: seq<string>,
                     keys: seq<string>, scores: map<string, Num>, totals: map<string, Num>, name: string)
    requires |items| == |answers|
    requires Tallied(items, answers, sections, |items|, keys, scores, totals)
    requires name in keys
    ensures name in scores && name in totals
    ensures KeyEntry(name, scores, totals) == EntryFor(items, answers, sections, name)
  {
    if name !in sections {
      assert name in scores;
      assert SectionCorrect(items, answers, name, |items|) > 0;
    }
  }

  /** The entries built key by key are the specified breakdown. */
  lemma TalliedEntries(items: seq<Item>, answers: seq<Option<string>>, sections: seq<string>,
                       keys: seq<string>, scores: map<string, Num>, totals: map<string, Num>, result: seq<SectionEntry>)
    requires |items| == |answers|
    requires Tallied(items, answers, sections, |items|, keys, scores, totals)
    requires forall name :: name in keys ==> name in scores && name in totals
    requires |result| == |keys|
    requires forall m :: 0 <= m < |keys| ==> result[m] == KeyEntry(keys[m], scores, totals)
    ensures result == SectionScores(items, answers, sections)
  {
    forall m | 0 <= m < |keys|
      ensures result[m] == EntryFor(items, answers, sections, keys[m])
    {
      TalliedEntry(items, answers, sections, keys, scores, totals, keys[m]);
    }
  }

  /** `calculateSectionScores`, the result built by walking the score keys in order. */
  method CalculateSectionScores(items: seq<Item>, answers: seq<Option<string>>, sections: seq<string>)
      returns (result: seq<SectionEntry>)
    requires |items| == |answers|
    ensures result == SectionScores(items, answers, sections)
  {
    var keys, scores, totals := TallySections(items, answers, sections);
    forall name | name in keys
      ensures name in scores && name in totals
    {
      TalliedEntry(items, answers, sections, keys, scores, totals, name);
    }
    result := BuildEntries(keys, scores, totals);
    TalliedEntries(items, answers, sections, keys, scores, totals, result);
  }

  /** The last loop of `calculateSectionScores`: one entry per score key, in key order. */
  method BuildEntries(keys: seq<string>, scores: map<string, Num>, totals: map<string, Num>)
      returns (result: seq<SectionEntry>)
    requires forall name :: name in keys ==> name in scores && name in totals
    ensures |result| == |keys|
    ensures forall m :: 0 <= m < |keys| ==> result[m] == KeyEntry(keys[m], scores, totals)
  {
    result := [];
    var k := 0;
    while k < |keys|
      invariant 0 <= k <= |keys|
      invariant |result| == k
      invariant forall m :: 0 <= m < k ==> result[m] == KeyEntry(keys[m], scores, totals)
    {
      result := result + [KeyEntry(keys[k], scores, totals)];
      k := k + 1;
    }
  }

  /** A configured section reports numbers: its score, its total and the rounded percentage. */
  lemma ConfiguredEntryBounds(items: seq<Item>, answers: seq<Option<string>>, sections: seq<string>, s: string)
    requires |items| == |answers| && s in sections
    ensures var e := EntryFor(items, answers, sections, s);
      e.score.Val? && e.total.Val? && e.score.v <= e.total.v && e.percentage <= 100
      && e.percentage == (if e.total.v > 0 then RoundRatio(e.score.v, e.total.v, 100) else 0)
  {
  }

  /** A correct answer in a section missing from the configuration adds a NaN entry for it. */
  lemma StraySectionEntry(items: seq<Item>, answers: seq<Option<string>>, sections: seq<string>, i: nat)
    requires |items| == |answers| && i < |items|
    requires Correct(items, answers, i) && items[i].section !in sections
    ensures exists k ::
              0 <= k < |SectionScores(items, answers, sections)|
              && SectionScores(items, answers, sections)[k] == SectionEntry(items[i].section, NaN, NaN, 0)
  {
    CorrectCountsInSection(items, answers, items[i].section, i, |items|);
    var keys := Dedup(sections) + StrayKeys(items, answers, sections, |items|);
    assert items[i].section in keys;
    var k :| 0 <= k < |keys| && keys[k] == items[i].section;
    assert SectionScores(items, answers, sections)[k] == EntryFor(items, answers, sections, keys[k]);
  }

  lemma {:induction false} CorrectCountsInSection(items: seq<Item>, answers: seq<Option<string>>, s: string, i: nat, n: nat)
    requires i < n <= |items| && n <= |answers|
    requires Correct(items, answers, i) && items[i].section == s
    ensures SectionCorrect(items, answers, s, n) > 0
  {
    if n - 1 > i {
      CorrectCountsInSection(items, answers, s, i, n - 1);
    }
  }

  /** Sum of the section totals over distinct keys. */
  function TotalOver(items: seq<Item>, keys: seq<string>, n: nat): nat
    requires n <= |items|
  {
    if keys == [] then 0 else TotalOver(items, keys[..|keys| - 1], n) + SectionTotal(items, keys[|keys| - 1], n)
  }

  lemma {:induction false} TotalOverStep(items: seq<Item>, keys: seq<string>, n: nat)
    requires 0 < n <= |items|
    requires forall a, b :: 0 <= a < b < |keys| ==> keys[a] != keys[b]
    ensures TotalOver(items, keys, n) == TotalOver(items, keys, n - 1) + if items[n - 1].section in keys then 1 else 0
  {
    if keys != [] {
      var init := keys[..|keys| - 1];
      TotalOverStep(items, init, n);
      assert items[n - 1].section in keys <==> items[n - 1].section in init || items[n - 1].section == keys[|keys| - 1];
      if items[n - 1].section == keys[|keys| - 1] {
        assert items[n - 1].section !in init;
      }
    }
  }

  lemma {:induction false} TotalOverAll(items: seq<Item>, keys: seq<string>, n: nat)
    requires n <= |items|
    requires forall a, b :: 0 <= a < b < |keys| ==> keys[a] != keys[b]
    requires forall k :: 0 <= k < n ==> items[k].section in keys
    ensures TotalOver(items, keys, n) == n
  {
    if n > 0 {
      TotalOverAll(items, keys, n - 1);
      TotalOverStep(items, keys, n);
    } else if keys != [] {
      TotalOverZero(items, keys);
    }
  }

  lemma {:induction false} TotalOverZero(items: seq<Item>, keys: seq<string>)
    ensures TotalOver(items, keys, 0) == 0
  {
    if keys != [] {
      TotalOverZero(items, keys[..|keys| - 1]);
    }
  }

  /**
   * When every item's section is configured there are no extra entries, and
   * the configured sections' totals add up to the number of items.
   */
  lemma AllConfiguredSectionsSum(items: seq<Item>, answers: seq<Option<string>>, sections: seq<string>)
    requires |items| == |answers|
    requires forall k :: 0 <= k < |items| ==> items[k].section in sections
    ensures StrayKeys(items, answers, sections, |items|) == []
    ensures TotalOver(items, Dedup(sections), |items|) == |items|
  {
    var stray := StrayKeys(items, answers, sections, |items|);
    if stray != [] {
      var s := stray[0];
      assert SectionCorrect(items, answers, s, |items|) > 0;
      SectionHasItem(items, answers, s, |items|);
    }
    TotalOverAll(items, Dedup(sections), |items|);
  }

  lemma {:induction false} SectionHasItem(items: seq<Item>, answers: seq<Option<string>>, s: string, n: nat)
    requires n <= |items| && n <= |answers|
    requires SectionCorrect(items, answers, s, n) > 0
    ensures exists k :: 0 <= k < n && items[k].section == s
  {
    if !(items[n - 1].section == s && Correct(items, answers, n - 1)) {
      SectionHasItem(items, answers, s, n - 1);
    }
  }

  // -------------------------------------------------------------- the app

  /** `(testSettings?.totalTimeMinutes || 40) * 60`. */
  function TotalTestTime(d: TestData): int {
    var minutes := if d.settings.None? || d.settings.value.totalTimeMinutes.None? then 0
                   else d.settings.value.totalTimeMinutes.value;
    (if minutes == 0 then 40 else minutes) * 60
  }

  /** `new Array(n).fill(null)`. */
  function NoAnswers(n: nat): (r: seq<Option<string>>)
    ensures |r| == n && forall k :: 0 <= k < n ==> r[k] == None
  {
    seq(n, _ => None)
  }

  /** What `submitTest` hands to the results screen. */
  datatype Submission = Submission(score: nat, total: nat, cefr: string, sections: seq<SectionEntry>)

  class App {
    var testData: Option<TestData>
    var allQuestions: seq<Item>
    var currentQuestionIndex: int
    var userAnswers: seq<Option<string>>
    var score: nat
    /** Whether the countdown interval is running. */
    var timerRunning: bool
    var timeRemaining: int
    var totalTestTime: int

    /** One recorded answer slot per item. */
    predicate Valid()
      reads this
    {
      |userAnswers| == |allQuestions|
    }

    /** The index designates an item (or is 0 for an empty test). */
    predicate IndexInRange()
      reads this
    {
      0 <= currentQuestionIndex && (currentQuestionIndex < |allQuestions| || currentQuestionIndex == 0)
    }

    /** The object literal's initial fields. */
    constructor()
      ensures testData == None && allQuestions == [] && currentQuestionIndex == 0 && userAnswers == []
      ensures score == 0 && !timerRunning && timeRemaining == 0 && totalTestTime == 0
      ensures Valid() && IndexInRange()
    {
      testData := None;
      allQuestions := [];
      currentQuestionIndex := 0;
      userAnswers := [];
      score := 0;
      timerRunning := false;
      timeRemaining := 0;
      totalTestTime := 0;
    }

    /** `prepareQuestions`: flatten the bank, one null answer per item. */
    method PrepareQuestions()
      requires testData.Some?
      modifies this`allQuestions, this`userAnswers
      ensures allQuestions == Flatten(testData.value)
      ensures userAnswers == NoAnswers(|allQuestions|)
      ensures Valid()
    {
      var d := testData.value;
      var p0: seq<Item> := [];
      var p1 := PushQuestions(p0, d.vocabulary, "Vocabulary");
      var p2 := PushQuestions(p1, d.grammar, "Grammar");
      var p3 := PushPassages(p2, d.reading);
      var p4 := PushScripts(p3, d.listening);
      assert p1 == QuestionItems(d.vocabulary, "Vocabulary");
      allQuestions := p4;
      userAnswers := NoAnswers(|p4|);
    }

    /** The body of `init` once the bank has been fetched (the fetch itself is a parameter). */
    method Init(data: TestData)
      modifies this
      ensures testData == Some(data)
      ensures allQuestions == Flatten(data) && userAnswers == NoAnswers(|allQuestions|)
      ensures totalTestTime == TotalTestTime(data) && timeRemaining == totalTestTime
      ensures currentQuestionIndex == old(currentQuestionIndex) && score == old(score)
      ensures timerRunning == old(timerRunning)
      ensures Valid()
    {
      testData := Some(data);
      PrepareQuestions();
      totalTestTime := TotalTestTime(data);
      timeRemaining := totalTestTime;
    }

    /** `startTest`: back to the first item, answers cleared, score 0, full time, timer on. */
    method StartTest()
      requires Valid()
      modifies this
      ensures currentQuestionIndex == 0 && score == 0 && timeRemaining == totalTestTime && timerRunning
      ensures userAnswers == NoAnswers(|allQuestions|)
      ensures allQuestions == old(allQuestions) && totalTestTime == old(totalTestTime) && testData == old(testData)
      ensures Valid() && IndexInRange()
    {
      currentQuestionIndex := 0;
      userAnswers := NoAnswers(|userAnswers|);
      score := 0;
      timeRemaining := totalTestTime;
      timerRunning := true;
    }

    /** `handleOptionSelect`: record the choice for the current item and nothing else. */
    method HandleOptionSelect(selectedOptionValue: string)
      requires Valid() && 0 <= currentQuestionIndex < |allQuestions|
      modifies this`userAnswers
      ensures userAnswers == old(userAnswers)[currentQuestionIndex := Some(selectedOptionValue)]
      ensures Valid()
    {
      userAnswers := userAnswers[currentQuestionIndex := Some(selectedOptionValue)];
    }

    /**
     * `nextQuestion`: advance unless on the last item; there the submit
     * confirmation is asked for instead (`confirm`) and nothing changes.
     */
    method NextQuestion() returns (confirm: bool)
      requires IndexInRange()
      modifies this`currentQuestionIndex
      ensures confirm <==> old(currentQuestionIndex) >= |allQuestions| - 1
      ensures currentQuestionIndex == if confirm then old(currentQuestionIndex) else old(currentQuestionIndex) + 1
      ensures IndexInRange()
    {
      if currentQuestionIndex < |allQuestions| - 1 {
        currentQuestionIndex := currentQuestionIndex + 1;
        confirm := false;
      } else {
        confirm := true;
      }
    }

    /** `prevQuestion`: step back unless on the first item. */
    method PrevQuestion()
      requires IndexInRange()
      modifies this`currentQuestionIndex
      ensures currentQuestionIndex == if old(currentQuestionIndex) > 0 then old(currentQuestionIndex) - 1 else old(currentQuestionIndex)
      ensures IndexInRange()
    {
      if currentQuestionIndex > 0 {
        currentQuestionIndex := currentQuestionIndex - 1;
      }
    }

    /** `calculateScore`: count the set answers equal to their item's answer. */
    method CalculateScore()
      requires Valid()
      modifies this`score
      ensures score == CorrectCount(allQuestions, userAnswers, |userAnswers|)
      ensures score <= |allQuestions|
    {
      score := 0;
      var index := 0;
      while index < |userAnswers|
        invariant 0 <= index <= |userAnswers|
        invariant score == CorrectCount(allQuestions, userAnswers, index)
      {
        var answer := userAnswers[index];
        if answer.Some? && answer.value == allQuestions[index].answer {
          score := score + 1;
        }
        index := index + 1;
      }
    }

    /**
     * `submitTest`: stop the timer, count the score, and report the estimate
     * and the section breakdown.
     */
    method SubmitTest() returns (s: Submission)
      requires Valid() && testData.Some? && testData.value.settings.Some?
      modifies this`timerRunning, this`score
      ensures !timerRunning
      ensures score == CorrectCount(allQuestions, userAnswers, |userAnswers|)
      ensures s == Submission(score, |allQuestions|, DataUtils.EstimateCEFR(score, |allQuestions|),
                              SectionScores(allQuestions, userAnswers, testData.value.settings.value.sections))
    {
      timerRunning := false;
      CalculateScore();
      var cefr := DataUtils.EstimateCEFR(score, |allQuestions|);
      var sections := CalculateSectionScores(allQuestions, userAnswers, testData.value.settings.value.sections);
      s := Submission(score, |allQuestions|, cefr, sections);
    }

    /**
     * One tick of the countdown interval: one second less, and once no time
     * is left the interval stops and the test is submitted.
     */
    method Tick() returns (submitted: Option<Submission>)
      requires timerRunning && Valid()
      requires timeRemaining - 1 <= 0 ==> testData.Some? && testData.value.settings.Some?
      modifies this`timeRemaining, this`timerRunning, this`score
      ensures timeRemaining == old(timeRemaining) - 1
      ensures submitted.Some? <==> timeRemaining <= 0
      ensures timerRunning <==> timeRemaining > 0
      ensures submitted.Some? ==> score == CorrectCount(allQuestions, userAnswers, |userAnswers|)
      ensures submitted.Some? ==>
                && testData.Some? && testData.value.settings.Some?
                && submitted.value == Submission(score, |allQuestions|, DataUtils.EstimateCEFR(score, |allQuestions|),
                                                 SectionScores(allQuestions, userAnswers, testData.value.settings.value.sections))
      ensures submitted.None? ==> score == old(score)
    {
      timeRemaining := timeRemaining - 1;
      if timeRemaining <= 0 {
        var s := SubmitTest();
        submitted := Some(s);
      } else {
        submitted := None;
      }
    }
  }
}
