/**
 * The scoring and CEFR-classification engine (`CEFRCalculator`): partial-credit
 * scoring of the five question kinds, the fold into a total, a maximum and five
 * skill buckets, the first-match level table and the recommendation list.
 */
module CefrCalculator {
  import opened Js
  import opened Levels

  datatype Skill = Grammar | Vocabulary | Reading | Listening | Writing

  /** The order in which the skill dictionary is built and enumerated. */
  const Skills: seq<Skill> := [Grammar, Vocabulary, Reading, Listening, Writing]

  datatype Blank = Blank(position: int, correctAnswers: seq<string>)

  datatype SubQuestion = SubQuestion(id: string, question: string, options: seq<string>, correctAnswer: int)

  /** The per-kind part of a question; the tag is the constructor. */
  datatype Body =
    | MultipleChoice(question: string, options: seq<string>, correctAnswer: int)
    | FillBlank(passage: string, blanks: seq<Blank>)
    | ReadingComprehension(title: string, content: string, questions: seq<SubQuestion>)
    | ListeningComprehension(audioUrl: string, transcript: string, questions: seq<SubQuestion>)
    | VocabularyMatch(words: seq<string>, definitions: seq<string>, correctMatches: seq<int>)

  datatype Question = Question(id: string, level: Level, skillArea: Skill, points: nat, body: Body)

  /**
   * A value of the answer dictionary. `Undefined` is also what a missing key
   * reads as; arrays may have holes (`None`).
   */
  datatype Answer =
    | Undefined
    | Null
    | Index(n: int)
    | Text(s: string)
    | Indices(indices: seq<Option<int>>)
    | Texts(texts: seq<Option<string>>)

  /** `answers[id]`. */
  function Lookup(answers: map<string, Answer>, id: string): Answer {
    if id in answers then answers[id] else Undefined
  }

  /** `!answer`: undefined, null, the number 0 and the empty string; arrays are truthy. */
  predicate Falsy(a: Answer) {
    a.Undefined? || a.Null? || a == Index(0) || a == Text("")
  }

  // ------------------------------------------------------------ one question

  /** Blank comparison key: lower-cased, then trimmed. */
  function Normalize(s: string): string {
    Trim(ToLower(s))
  }

  /** `answer[i]?.toLowerCase().trim()`; `None` is undefined. */
  function BlankEntry(a: Answer, i: nat): Option<string> {
    match a
    case Texts(texts) =>
      if i < |texts| && texts[i].Some? then Some(Normalize(texts[i].value)) else None
    case Text(s) =>
      // indexing a string yields its i-th character
      if i < |s| then Some(Normalize([s[i]])) else None
    case _ => None
  }

  /** `candidates.some((correct) => normalize(correct) === entry)`. */
  predicate Accepts(candidates: seq<string>, entry: string) {
    candidates != [] && (Normalize(candidates[0]) == entry || Accepts(candidates[1..], entry))
  }

  /** Accented capitals are lower-cased too: the entry "CAFÉ" normalises to "café". */
  lemma AccentedEntryNormalises()
    ensures Normalize("CAF\U{00C9}") == "caf\U{00E9}"
  {
    var lower := "caf\U{00E9}";
    ToLowerFacts("CAF\U{00C9}");
    assert ToLower("CAF\U{00C9}") == lower;
    assert TrimStart(lower) == lower;
    assert TrimEnd(lower) == lower;
  }

  /** A blank accepts an entry exactly when some candidate normalises to it. */
  lemma {:induction false} AcceptsMeaning(candidates: seq<string>, entry: string)
    ensures Accepts(candidates, entry) <==> exists k :: 0 <= k < |candidates| && Normalize(candidates[k]) == entry
  {
    if candidates != [] {
      var rest := candidates[1..];
      AcceptsMeaning(rest, entry);
      if Accepts(candidates, entry) {
        if Normalize(candidates[0]) != entry {
          var k :| 0 <= k < |rest| && Normalize(rest[k]) == entry;
          assert candidates[k + 1] == rest[k];
        }
      } else {
        forall k | 0 <= k < |candidates|
          ensures Normalize(candidates[k]) != entry
        {
          if k > 0 {
            assert candidates[k] == rest[k - 1];
          }
        }
      }
    }
  }

  /** The blank is answered and one of its candidates matches the normalised entry. */
  predicate BlankCorrect(b: Blank, entry: Option<string>) {
    entry.Some? && Accepts(b.correctAnswers, entry.value)
  }

  /** Number of the first n blanks answered correctly. */
  function CorrectBlanks(blanks: seq<Blank>, a: Answer, n: nat): (k: nat)
    requires n <= |blanks|
    ensures k <= n
  {
    if n == 0 then 0
    else CorrectBlanks(blanks, a, n - 1) + if BlankCorrect(blanks[n - 1], BlankEntry(a, n - 1)) then 1 else 0
  }

  /** `answer[i]` when the answer is an array of indices; `None` otherwise. */
  function EntryAt(a: Answer, i: nat): Option<int> {
    if a.Indices? && i < |a.indices| then a.indices[i] else None
  }

  /** Number of positions i < n where `answer[i] === expected[i]`. */
  function Matches(expected: seq<int>, a: Answer, n: nat): (k: nat)
    requires n <= |expected|
    ensures k <= n
  {
    if n == 0 then 0
    else Matches(expected, a, n - 1) + if EntryAt(a, n - 1) == Some(expected[n - 1]) then 1 else 0
  }

  function ExpectedAnswers(subs: seq<SubQuestion>): (e: seq<int>)
    ensures |e| == |subs| && forall i :: 0 <= i < |subs| ==> e[i] == subs[i].correctAnswer
  {
    seq(|subs|, i requires 0 <= i < |subs| => subs[i].correctAnswer)
  }

  /** `Math.round(correct / total * points)`; 0/0 is NaN. */
  function Fraction(correct: nat, total: nat, points: nat): Num
    requires correct <= total
  {
    if total == 0 then NaN else Val(RoundRatio(correct, total, points))
  }

  /** Points awarded to one question for one answer (`scoreQuestion`). */
  function ScoreOf(q: Question, a: Answer): Num {
    if Falsy(a) then Val(0)
    else match q.body
      case MultipleChoice(_, _, correct) => if a == Index(correct) then Val(q.points) else Val(0)
      case FillBlank(_, blanks) => Fraction(CorrectBlanks(blanks, a, |blanks|), |blanks|, q.points)
      case ReadingComprehension(_, _, subs) =>
        Fraction(Matches(ExpectedAnswers(subs), a, |subs|), |subs|, q.points)
      case ListeningComprehension(_, _, subs) =>
        Fraction(Matches(ExpectedAnswers(subs), a, |subs|), |subs|, q.points)
      case VocabularyMatch(_, _, expected) => Fraction(Matches(expected, a, |expected|), |expected|, q.points)
  }

  /** Number of sub-items a partial-credit question is scored over. */
  function ItemCount(b: Body): nat {
    match b
    case MultipleChoice(_, _, _) => 1
    case FillBlank(_, blanks) => |blanks|
    case ReadingComprehension(_, _, subs) => |subs|
    case ListeningComprehension(_, _, subs) => |subs|
    case VocabularyMatch(_, _, expected) => |expected|
  }

  /** Counts matching positions, as the counter loops of `scoreQuestion` do. */
  method CountMatches(expected: seq<int>, a: Answer) returns (correct: nat)
    ensures correct == Matches(expected, a, |expected|)
  {
    correct := 0;
    var i := 0;
    while i < |expected|
      invariant 0 <= i <= |expected|
      invariant correct == Matches(expected, a, i)
    {
      if EntryAt(a, i) == Some(expected[i]) {
        correct := correct + 1;
      }
      i := i + 1;
    }
  }

  lemma CorrectBlanksNext(blanks: seq<Blank>, a: Answer, i: nat)
    requires i < |blanks|
    ensures CorrectBlanks(blanks, a, i + 1) == CorrectBlanks(blanks, a, i) + if BlankCorrect(blanks[i], BlankEntry(a, i)) then 1 else 0
  {
  }

  /** One pass of the fill-blank loop: the counter goes up when blank i accepts its entry. */
  method CountBlank(blanks: seq<Blank>, a: Answer, i: nat, correct: nat) returns (correct': nat)
    requires i < |blanks| && correct == CorrectBlanks(blanks, a, i)
    ensures correct' == CorrectBlanks(blanks, a, i + 1)
  {
    CorrectBlanksNext(blanks, a, i);
    correct' := correct;
    if BlankCorrect(blanks[i], BlankEntry(a, i)) {
      correct' := correct' + 1;
    }
  }

  /** Counts correctly answered blanks, as the fill-blank loop of `scoreQuestion` does. */
  method CountCorrectBlanks(blanks: seq<Blank>, a: Answer) returns (correct: nat)
    ensures correct == CorrectBlanks(blanks, a, |blanks|)
  {
    correct := 0;
    var i := 0;
    while i < |blanks|
      invariant 0 <= i <= |blanks|
      invariant correct == CorrectBlanks(blanks, a, i)
    {
      correct := CountBlank(blanks, a, i, correct);
      i := i + 1;
    }
  }

  /** `scoreQuestion`. */
  method ScoreQuestion(q: Question, a: Answer) returns (score: Num)
    ensures score == ScoreOf(q, a)
  {
    if Falsy(a) {
      return Val(0);
    }
    var correct: nat, total: nat;
    match q.body {
      case MultipleChoice(_, _, key) =>
        return if a == Index(key) then Val(q.points) else Val(0);
      case FillBlank(_, blanks) =>
        correct := CountCorrectBlanks(blanks, a);
        total := |blanks|;
      case ReadingComprehension(_, _, subs) =>
        correct := CountMatches(ExpectedAnswers(subs), a);
        total := |subs|;
      case ListeningComprehension(_, _, subs) =>
        correct := CountMatches(ExpectedAnswers(subs), a);
        total := |subs|;
      case VocabularyMatch(_, _, expected) =>
        correct := CountMatches(expected, a);
        total := |expected|;
    }
    score := Fraction(correct, total, q.points);
  }

  /**
   * A question scores NaN exactly when it is answered (truthy) and has nothing
   * to score over; otherwise the score lies in [0, points].
   */
  lemma ScoreBounds(q: Question, a: Answer)
    ensures ScoreOf(q, a).NaN? <==> !Falsy(a) && !q.body.MultipleChoice? && ItemCount(q.body) == 0
    ensures ScoreOf(q, a).Val? ==> ScoreOf(q, a).v <= q.points
  {
  }

  /** A falsy answer scores 0 whatever the question kind, and so does a missing key. */
  lemma UnansweredScoresZero(q: Question, answers: map<string, Answer>)
    requires q.id !in answers || Falsy(answers[q.id])
    ensures ScoreOf(q, Lookup(answers, q.id)) == Val(0)
  {
  }

  /** Multiple choice is all or nothing. */
  lemma MultipleChoiceAllOrNothing(q: Question, a: Answer)
    requires q.body.MultipleChoice?
    ensures ScoreOf(q, a) == Val(q.points) || ScoreOf(q, a) == Val(0)
    ensures ScoreOf(q, a) == Val(q.points) && q.points > 0 <==> !Falsy(a) && a == Index(q.body.correctAnswer) && q.points > 0
  {
  }

  /** A multiple-choice question whose key is option 0 can never score: the answer 0 is falsy. */
  lemma OptionZeroNeverScores(q: Question, a: Answer)
    requires q.body.MultipleChoice? && q.body.correctAnswer == 0
    ensures ScoreOf(q, a) == Val(0)
  {
  }

  /** All entries right earns full points; none right earns 0. */
  lemma {:induction false} AllMatchesFullPoints(q: Question, a: Answer)
    requires q.body.VocabularyMatch? && |q.body.correctMatches| > 0
    requires a.Indices? && |a.indices| >= |q.body.correctMatches|
    requires forall i :: 0 <= i < |q.body.correctMatches| ==> a.indices[i] == Some(q.body.correctMatches[i])
    ensures ScoreOf(q, a) == Val(q.points)
  {
    var expected := q.body.correctMatches;
    AllMatch(expected, a, |expected|);
  }

  lemma {:induction false} AllMatch(expected: seq<int>, a: Answer, n: nat)
    requires n <= |expected| && a.Indices? && |a.indices| >= n
    requires forall i :: 0 <= i < n ==> a.indices[i] == Some(expected[i])
    ensures Matches(expected, a, n) == n
  {
    if n > 0 {
      AllMatch(expected, a, n - 1);
    }
  }

  // ---------------------------------------------------------- the whole test

  /** Sum of f over the questions (NaN absorbs). */
  function SumScores(qs: seq<Question>, f: Question -> Num): Num {
    if qs == [] then Val(0)
    else SumScores(qs[..|qs| - 1], f).Plus(f(qs[|qs| - 1]))
  }

  /** Sum of f over the questions of one skill. */
  function SkillSum(qs: seq<Question>, f: Question -> Num, s: Skill): Num {
    if qs == [] then Val(0)
    else
      var rest := SkillSum(qs[..|qs| - 1], f, s);
      if qs[|qs| - 1].skillArea == s then rest.Plus(f(qs[|qs| - 1])) else rest
  }

  /** Each question scored against its entry in the answer dictionary. */
  function Scorer(answers: map<string, Answer>): Question -> Num {
    (q: Question) => ScoreOf(q, Lookup(answers, q.id))
  }

  /** Sum of the question scores. */
  function TotalScore(qs: seq<Question>, answers: map<string, Answer>): Num {
    SumScores(qs, Scorer(answers))
  }

  /** Sum of the scores of the questions of one skill. */
  function SkillScore(qs: seq<Question>, answers: map<string, Answer>, s: Skill): Num {
    SkillSum(qs, Scorer(answers), s)
  }

  /** Sum of all `points`, answered or not. */
  function MaxScore(qs: seq<Question>): nat {
    if qs == [] then 0 else MaxScore(qs[..|qs| - 1]) + qs[|qs| - 1].points
  }

  /** Sum of the points of the questions of one skill. */
  function SkillMax(qs: seq<Question>, s: Skill): nat {
    if qs == [] then 0
    else SkillMax(qs[..|qs| - 1], s) + if qs[|qs| - 1].skillArea == s then qs[|qs| - 1].points else 0
  }

  /** `max > 0 ? Math.round(score / max * 100) : 0`. */
  function Percent(score: Num, max: nat): Num {
    if max == 0 then Val(0)
    else if score.NaN? then NaN
    else Val(RoundRatio(score.v, max, 100))
  }

  datatype SkillTally = SkillTally(score: Num, maxScore: nat)

  datatype SkillResult = SkillResult(score: Num, maxScore: nat, percentage: Num)

  datatype Result = Result(
    totalScore: Num,
    maxScore: nat,
    percentage: Num,
    cefrLevel: Level,
    skillBreakdown: map<Skill, SkillResult>,
    timeSpent: nat,
    recommendations: seq<Tip>)

  /** What the breakdown reports for one skill. */
  function SkillReport(qs: seq<Question>, answers: map<string, Answer>, s: Skill): SkillResult {
    var score := SkillScore(qs, answers, s);
    var max := SkillMax(qs, s);
    SkillResult(score, max, Percent(score, max))
  }

  /** Every skill has a tally, holding the score and points of that skill's questions. */
  ghost predicate SkillsTallied(qs: seq<Question>, answers: map<string, Answer>, m: map<Skill, SkillTally>) {
    forall s :: s in m && m[s] == SkillTally(SkillScore(qs, answers, s), SkillMax(qs, s))
  }

  /** Adding one question's score and points to its own skill's tally keeps every tally right. */
  lemma TallyStep(qs: seq<Question>, answers: map<string, Answer>, m: map<Skill, SkillTally>, q: Question)
    requires SkillsTallied(qs, answers, m)
    ensures SkillsTallied(qs + [q], answers,
      m[q.skillArea := SkillTally(m[q.skillArea].score.Plus(Scorer(answers)(q)), m[q.skillArea].maxScore + q.points)])
  {
    assert (qs + [q])[..|qs|] == qs;
  }

  /** One pass of the accumulation loop: the question's score and points join the totals and its skill's tally. */
  method TallyQuestion(ghost qs: seq<Question>, answers: map<string, Answer>, q: Question,
                       totalScore: Num, maxScore: nat, skillScores: map<Skill, SkillTally>)
      returns (totalScore': Num, maxScore': nat, skillScores': map<Skill, SkillTally>)
    requires totalScore == TotalScore(qs, answers) && maxScore == MaxScore(qs)
    requires SkillsTallied(qs, answers, skillScores)
    ensures totalScore' == TotalScore(qs + [q], answers) && maxScore' == MaxScore(qs + [q])
    ensures SkillsTallied(qs + [q], answers, skillScores')
  {
    var questionScore := ScoreQuestion(q, Lookup(answers, q.id));
    assert questionScore == Scorer(answers)(q);
    assert (qs + [q])[..|qs|] == qs;
    TallyStep(qs, answers, skillScores, q);
    totalScore' := totalScore.Plus(questionScore);
    maxScore' := maxScore + q.points;
    var tally := skillScores[q.skillArea];
    skillScores' := skillScores[q.skillArea := SkillTally(tally.score.Plus(questionScore), tally.maxScore + q.points)];
  }

  /** The five zeroed skill buckets the accumulation starts from. */
  method EmptyTallies() returns (m: map<Skill, SkillTally>)
    ensures forall s :: s in m && m[s] == SkillTally(Val(0), 0)
  {
    m := map[Grammar := SkillTally(Val(0), 0), Vocabulary := SkillTally(Val(0), 0),
             Reading := SkillTally(Val(0), 0), Listening := SkillTally(Val(0), 0),
             Writing := SkillTally(Val(0), 0)];
    forall s: Skill ensures s in m {
      match s
      case Grammar =>
      case Vocabulary =>
      case Reading =>
      case Listening =>
      case Writing =>
    }
  }

  /** Zeroed buckets are the tallies of no questions. */
  lemma NothingTallied(answers: map<string, Answer>, m: map<Skill, SkillTally>)
    requires forall s :: s in m && m[s] == SkillTally(Val(0), 0)
    ensures SkillsTallied([], answers, m)
  {
  }

  /** The accumulation loop of `calculateDetailedResults`: total, maximum and per-skill tallies. */
  method TallyScores(qs: seq<Question>, answers: map<string, Answer>)
      returns (totalScore: Num, maxScore: nat, skillScores: map<Skill, SkillTally>)
    ensures totalScore == TotalScore(qs, answers)
    ensures maxScore == MaxScore(qs)
    ensures forall s :: s in skillScores
    ensures forall s :: skillScores[s] == SkillTally(SkillScore(qs, answers, s), SkillMax(qs, s))
  {
    totalScore := Val(0);
    maxScore := 0;
    skillScores := EmptyTallies();
    NothingTallied(answers, skillScores);
    assert qs[..0] == [];
    var i := 0;
    while i < |qs|
      invariant 0 <= i <= |qs|
      invariant totalScore == TotalScore(qs[..i], answers)
      invariant maxScore == MaxScore(qs[..i])
      invariant SkillsTallied(qs[..i], answers, skillScores)
    {
      assert qs[..i + 1] == qs[..i] + [qs[i]];
      totalScore, maxScore, skillScores := TallyQuestion(qs[..i], answers, qs[i], totalScore, maxScore, skillScores);
      i := i + 1;
    }
    assert qs[..i] == qs;
  }

  /** `calculateDetailedResults`. */
  method CalculateDetailedResults(qs: seq<Question>, answers: map<string, Answer>) returns (r: Result)
    ensures r.totalScore == TotalScore(qs, answers)
    ensures r.maxScore == MaxScore(qs)
    ensures r.percentage == Percent(r.totalScore, r.maxScore)
    ensures r.cefrLevel == CalculateCEFRLevel(r.percentage)
    ensures forall s :: s in r.skillBreakdown
    ensures forall s :: r.skillBreakdown[s] == SkillReport(qs, answers, s)
    ensures r.timeSpent == 0
    ensures r.recommendations == SkillTips(r.skillBreakdown, Skills) + [LevelTip(r.cefrLevel)]
  {
    var totalScore, maxScore, skillScores := TallyScores(qs, answers);
    var percentage := Percent(totalScore, maxScore);
    var cefrLevel := CalculateCEFRLevel(percentage);
    var skillBreakdown := map s | s in skillScores ::
      SkillResult(skillScores[s].score, skillScores[s].maxScore, Percent(skillScores[s].score, skillScores[s].maxScore));
    var recommendations := GenerateRecommendations(skillBreakdown, cefrLevel);
    r := Result(totalScore, maxScore, percentage, cefrLevel, skillBreakdown, 0, recommendations);
  }

  /** A sum is NaN exactly when one of its terms is. */
  lemma {:induction false} SumNaN(qs: seq<Question>, f: Question -> Num)
    ensures SumScores(qs, f).NaN? <==> exists i :: 0 <= i < |qs| && f(qs[i]).NaN?
  {
    if qs != [] {
      var init := qs[..|qs| - 1];
      SumNaN(init, f);
      assert forall i :: 0 <= i < |init| ==> init[i] == qs[i];
    }
  }

  /** A sum of terms each within its question's points is within the maximum. */
  lemma {:induction false} SumWithinMax(qs: seq<Question>, f: Question -> Num)
    requires forall q :: f(q).Val? ==> f(q).v <= q.points
    ensures SumScores(qs, f).Val? ==> SumScores(qs, f).v <= MaxScore(qs)
  {
    if qs != [] {
      SumWithinMax(qs[..|qs| - 1], f);
    }
  }

  /** The five per-skill sums add up to the whole sum (NaN included). */
  lemma {:induction false} SkillSumsAddUp(qs: seq<Question>, f: Question -> Num)
    ensures SkillSum(qs, f, Grammar).Plus(SkillSum(qs, f, Vocabulary)).Plus(SkillSum(qs, f, Reading))
      .Plus(SkillSum(qs, f, Listening)).Plus(SkillSum(qs, f, Writing)) == SumScores(qs, f)
  {
    if qs != [] {
      var init, last := qs[..|qs| - 1], qs[|qs| - 1];
      SkillSumsAddUp(init, f);
      var g, v, r, l, w := SkillSum(init, f, Grammar), SkillSum(init, f, Vocabulary), SkillSum(init, f, Reading),
        SkillSum(init, f, Listening), SkillSum(init, f, Writing);
      var x := f(last);
      match last.skillArea
      case Grammar => PlusShift(g, v, r, l, w, x, g.Plus(x), v, r, l, w);
      case Vocabulary => PlusShift(g, v, r, l, w, x, g, v.Plus(x), r, l, w);
      case Reading => PlusShift(g, v, r, l, w, x, g, v, r.Plus(x), l, w);
      case Listening => PlusShift(g, v, r, l, w, x, g, v, r, l.Plus(x), w);
      case Writing => PlusShift(g, v, r, l, w, x, g, v, r, l, w.Plus(x));
    }
  }

  /** Adding x to the sum of five terms is adding it to one of them. */
  lemma PlusShift(a: Num, b: Num, c: Num, d: Num, e: Num, x: Num, a': Num, b': Num, c': Num, d': Num, e': Num)
    requires [a', b', c', d', e'] in {[a.Plus(x), b, c, d, e], [a, b.Plus(x), c, d, e], [a, b, c.Plus(x), d, e],
                                      [a, b, c, d.Plus(x), e], [a, b, c, d, e.Plus(x)]}
    ensures a.Plus(b).Plus(c).Plus(d).Plus(e).Plus(x) == a'.Plus(b').Plus(c').Plus(d').Plus(e')
  {
  }

  /** The total is NaN exactly when some question's score is. */
  lemma TotalNaN(qs: seq<Question>, answers: map<string, Answer>)
    ensures TotalScore(qs, answers).NaN? <==>
      exists i :: 0 <= i < |qs| && ScoreOf(qs[i], Lookup(answers, qs[i].id)).NaN?
  {
    SumNaN(qs, Scorer(answers));
  }

  /** The total never exceeds the maximum. */
  lemma TotalWithinMax(qs: seq<Question>, answers: map<string, Answer>)
    ensures TotalScore(qs, answers).Val? ==> TotalScore(qs, answers).v <= MaxScore(qs)
  {
    forall q ensures Scorer(answers)(q).Val? ==> Scorer(answers)(q).v <= q.points {
      ScoreBounds(q, Lookup(answers, q.id));
    }
    SumWithinMax(qs, Scorer(answers));
  }

  lemma {:induction false} SkillSumWithinMax(qs: seq<Question>, f: Question -> Num, s: Skill)
    requires forall q :: f(q).Val? ==> f(q).v <= q.points
    ensures SkillSum(qs, f, s).Val? ==> SkillSum(qs, f, s).v <= SkillMax(qs, s)
  {
    if qs != [] {
      SkillSumWithinMax(qs[..|qs| - 1], f, s);
    }
  }

  /**
   * A numeric skill score is at most that skill's points, so the skill's
   * percentage in the breakdown is at most 100 (or NaN).
   */
  lemma SkillScoreWithinMax(qs: seq<Question>, answers: map<string, Answer>, s: Skill)
    ensures SkillScore(qs, answers, s).Val? ==> SkillScore(qs, answers, s).v <= SkillMax(qs, s)
    ensures SkillReport(qs, answers, s).percentage.Val? ==> SkillReport(qs, answers, s).percentage.v <= 100
  {
    forall q ensures Scorer(answers)(q).Val? ==> Scorer(answers)(q).v <= q.points {
      ScoreBounds(q, Lookup(answers, q.id));
    }
    SkillSumWithinMax(qs, Scorer(answers), s);
    PercentBounds(SkillScore(qs, answers, s), SkillMax(qs, s));
  }

  /** The five skill scores add up to the total score, and the five skill maxima to the maximum. */
  lemma BucketsSumToTotals(qs: seq<Question>, answers: map<string, Answer>)
    ensures SkillScore(qs, answers, Grammar).Plus(SkillScore(qs, answers, Vocabulary))
      .Plus(SkillScore(qs, answers, Reading)).Plus(SkillScore(qs, answers, Listening))
      .Plus(SkillScore(qs, answers, Writing)) == TotalScore(qs, answers)
    ensures SkillMax(qs, Grammar) + SkillMax(qs, Vocabulary) + SkillMax(qs, Reading)
            + SkillMax(qs, Listening) + SkillMax(qs, Writing) == MaxScore(qs)
  {
    SkillSumsAddUp(qs, Scorer(answers));
    SkillMaxAddUp(qs);
  }

  lemma {:induction false} SkillMaxAddUp(qs: seq<Question>)
    ensures SkillMax(qs, Grammar) + SkillMax(qs, Vocabulary) + SkillMax(qs, Reading)
            + SkillMax(qs, Listening) + SkillMax(qs, Writing) == MaxScore(qs)
  {
    if qs != [] {
      SkillMaxAddUp(qs[..|qs| - 1]);
    }
  }

  /** Percentages lie in [0, 100] whenever the score is within the maximum. */
  lemma PercentBounds(score: Num, max: nat)
    requires score.Val? ==> score.v <= max
    ensures Percent(score, max).Val? ==> Percent(score, max).v <= 100
    ensures Percent(score, max).NaN? <==> max > 0 && score.NaN?
    ensures max > 0 && score == Val(max) ==> Percent(score, max) == Val(100)
  {
  }

  /** The overall percentage of a test is in [0, 100] (or NaN, from a question with nothing to score). */
  lemma OverallPercentBounds(qs: seq<Question>, answers: map<string, Answer>)
    ensures var p := Percent(TotalScore(qs, answers), MaxScore(qs));
      (p.Val? ==> p.v <= 100) && (MaxScore(qs) == 0 ==> p == Val(0))
  {
    TotalWithinMax(qs, answers);
  }

  // ------------------------------------------------------------- level table

  datatype Threshold = Threshold(level: Level, min: nat, max: nat)

  /** `LEVEL_THRESHOLDS`, in enumeration order. */
  const LevelThresholds: seq<Threshold> := [
    Threshold(A1, 0, 35), Threshold(A2, 36, 50), Threshold(B1, 51, 65),
    Threshold(B2, 66, 80), Threshold(C1, 81, 90), Threshold(C2, 91, 100)]

  /** `percentage >= min && percentage <= max`; false for NaN. */
  predicate InRange(t: Threshold, p: Num) {
    p.Val? && t.min <= p.v <= t.max
  }

  /** First entry of the table whose inclusive range holds p; A1 when none does. */
  function FirstMatch(table: seq<Threshold>, p: Num): Level {
    if table == [] then A1
    else if InRange(table[0], p) then table[0].level
    else FirstMatch(table[1..], p)
  }

  /** The scan returns the level of the first entry whose range holds p. */
  lemma {:induction false} FirstMatchAt(table: seq<Threshold>, p: Num, i: nat)
    requires i < |table| && InRange(table[i], p)
    requires forall j :: 0 <= j < i ==> !InRange(table[j], p)
    ensures FirstMatch(table, p) == table[i].level
  {
    if i > 0 {
      assert !InRange(table[0], p);
      forall j | 0 <= j < i - 1
        ensures !InRange(table[1..][j], p)
      {
        assert table[1..][j] == table[j + 1];
      }
      FirstMatchAt(table[1..], p, i - 1);
    }
  }

  /** When no entry's range holds p, the scan falls back to A1. */
  lemma {:induction false} FirstMatchNone(table: seq<Threshold>, p: Num)
    requires forall i :: 0 <= i < |table| ==> !InRange(table[i], p)
    ensures FirstMatch(table, p) == A1
  {
    if table != [] {
      assert !InRange(table[0], p);
      forall j | 0 <= j < |table| - 1
        ensures !InRange(table[1..][j], p)
      {
        assert table[1..][j] == table[j + 1];
      }
      FirstMatchNone(table[1..], p);
    }
  }

  /** `calculateCEFRLevel`. */
  function CalculateCEFRLevel(percentage: Num): Level {
    FirstMatch(LevelThresholds, percentage)
  }

  /** For every percentage 0..100 exactly one range of the table matches. */
  lemma ExactlyOneRange(p: nat)
    requires p <= 100
    ensures exists i :: 0 <= i < |LevelThresholds| && InRange(LevelThresholds[i], Val(p))
    ensures forall i, j ::
              0 <= i < |LevelThresholds| && 0 <= j < |LevelThresholds|
              && InRange(LevelThresholds[i], Val(p)) && InRange(LevelThresholds[j], Val(p))
              ==> i == j
  {
    if p <= 35 { assert InRange(LevelThresholds[0], Val(p)); }
    else if p <= 50 { assert InRange(LevelThresholds[1], Val(p)); }
    else if p <= 65 { assert InRange(LevelThresholds[2], Val(p)); }
    else if p <= 80 { assert InRange(LevelThresholds[3], Val(p)); }
    else if p <= 90 { assert InRange(LevelThresholds[4], Val(p)); }
    else { assert InRange(LevelThresholds[5], Val(p)); }
  }

  /** The level is the one whose range holds p; outside every range (above 100, NaN) it is A1. */
  lemma LevelOfPercentage(p: Num)
    ensures p.Val? && p.v <= 35 ==> CalculateCEFRLevel(p) == A1
    ensures p.Val? && 36 <= p.v <= 50 ==> CalculateCEFRLevel(p) == A2
    ensures p.Val? && 51 <= p.v <= 65 ==> CalculateCEFRLevel(p) == B1
    ensures p.Val? && 66 <= p.v <= 80 ==> CalculateCEFRLevel(p) == B2
    ensures p.Val? && 81 <= p.v <= 90 ==> CalculateCEFRLevel(p) == C1
    ensures p.Val? && 91 <= p.v <= 100 ==> CalculateCEFRLevel(p) == C2
    ensures p.NaN? || p.v > 100 ==> CalculateCEFRLevel(p) == A1
  {
    var t := LevelThresholds;
    if p.NaN? || p.v > 100 {
      FirstMatchNone(t, p);
    } else if p.v <= 35 {
      FirstMatchAt(t, p, 0);
    } else if p.v <= 50 {
      FirstMatchAt(t, p, 1);
    } else if p.v <= 65 {
      FirstMatchAt(t, p, 2);
    } else if p.v <= 80 {
      FirstMatchAt(t, p, 3);
    } else if p.v <= 90 {
      FirstMatchAt(t, p, 4);
    } else {
      FirstMatchAt(t, p, 5);
    }
  }

  /** Within 0..100 the level never drops as the percentage grows. */
  lemma LevelMonotone(p1: nat, p2: nat)
    requires p1 <= p2 <= 100
    ensures Rank(CalculateCEFRLevel(Val(p1))) <= Rank(CalculateCEFRLevel(Val(p2)))
  {
    LevelOfPercentage(Val(p1));
    LevelOfPercentage(Val(p2));
  }

  // --------------------------------------------------------- recommendations

  /** The recommendation messages; `TipText` gives their wording. */
  datatype Tip = GrammarTip | VocabularyTip | ReadingTip | ListeningTip | LevelTip(level: Level)

  /** The tip a weak skill earns; writing has no case and earns none. */
  function SkillTip(s: Skill): Option<Tip> {
    match s
    case Grammar => Some(GrammarTip)
    case Vocabulary => Some(VocabularyTip)
    case Reading => Some(ReadingTip)
    case Listening => Some(ListeningTip)
    case Writing => None
  }

  /** The wording of each recommendation. */
  function TipText(t: Tip): string {
    match t
    case GrammarTip => "Focus on grammar fundamentals and sentence structure"
    case VocabularyTip => "Expand your vocabulary with daily word learning"
    case ReadingTip => "Practice reading comprehension with varied texts"
    case ListeningTip => "Improve listening skills with native speaker content"
    case LevelTip(A1) => "Start with basic vocabulary and simple sentence patterns"
    case LevelTip(A2) => "Focus on everyday situations and common expressions"
    case LevelTip(B1) => "Practice expressing opinions and describing experiences"
    case LevelTip(B2) => "Work on complex texts and abstract topics"
    case LevelTip(C1) => "Refine your language for academic and professional contexts"
    case LevelTip(C2) => "Perfect your nuanced understanding and expression"
  }

  /** `scores.maxScore > 0 && scores.percentage < 70`. */
  predicate Weak(r: SkillResult) {
    r.maxScore > 0 && r.percentage.Below(70)
  }

  /**
   * The tip one skill contributes: its tip when it is in the breakdown, weak
   * and has one, else nothing (a skill missing from the breakdown is never
   * visited by `Object.entries`).
   */
  function TipFor(breakdown: map<Skill, SkillResult>, s: Skill): seq<Tip> {
    if s in breakdown && Weak(breakdown[s]) && SkillTip(s).Some? then [SkillTip(s).value] else []
  }

  /** Skill tips for the given skills, in that order. */
  function SkillTips(breakdown: map<Skill, SkillResult>, skills: seq<Skill>): seq<Tip> {
    if skills == [] then []
    else SkillTips(breakdown, skills[..|skills| - 1]) + TipFor(breakdown, skills[|skills| - 1])
  }

  /** `generateRecommendations`: a loop over the breakdown pushing tips, then the level tip. */
  method GenerateRecommendations(breakdown: map<Skill, SkillResult>, level: Level) returns (recommendations: seq<Tip>)
    ensures recommendations == SkillTips(breakdown, Skills) + [LevelTip(level)]
  {
    recommendations := [];
    var i := 0;
    while i < |Skills|
      invariant 0 <= i <= |Skills|
      invariant recommendations == SkillTips(breakdown, Skills[..i])
    {
      var skill := Skills[i];
      assert Skills[..i + 1][..i] == Skills[..i];
      if skill in breakdown && Weak(breakdown[skill]) {
        match SkillTip(skill) {
          case Some(tip) => recommendations := recommendations + [tip];
          case None =>
        }
      }
      i := i + 1;
    }
    assert Skills[..i] == Skills;
    recommendations := recommendations + [LevelTip(level)];
  }

  /** Appending one skill appends its tip. */
  lemma SkillTipsSnoc(breakdown: map<Skill, SkillResult>, skills: seq<Skill>, s: Skill)
    ensures SkillTips(breakdown, skills + [s]) == SkillTips(breakdown, skills) + TipFor(breakdown, s)
  {
    assert (skills + [s])[..|skills|] == skills;
  }

  /** Over the five skills the tips are grammar's, vocabulary's, reading's and listening's, in that order. */
  lemma SkillTipsOfSkills(breakdown: map<Skill, SkillResult>)
    ensures SkillTips(breakdown, Skills) == TipFor(breakdown, Grammar) + TipFor(breakdown, Vocabulary)
      + TipFor(breakdown, Reading) + TipFor(breakdown, Listening)
  {
    var g, v, r, l := TipFor(breakdown, Grammar), TipFor(breakdown, Vocabulary),
                      TipFor(breakdown, Reading), TipFor(breakdown, Listening);
    var s1: seq<Skill> := [Grammar];
    var s2, s3, s4 := s1 + [Vocabulary], s1 + [Vocabulary] + [Reading], s1 + [Vocabulary] + [Reading] + [Listening];
    SkillTipsSnoc(breakdown, [], Grammar);
    assert [] + [Grammar] == s1;
    assert SkillTips(breakdown, s1) == g;
    SkillTipsSnoc(breakdown, s1, Vocabulary);
    assert SkillTips(breakdown, s2) == g + v;
    SkillTipsSnoc(breakdown, s2, Reading);
    assert SkillTips(breakdown, s3) == g + v + r;
    SkillTipsSnoc(breakdown, s3, Listening);
    assert SkillTips(breakdown, s4) == g + v + r + l;
    SkillTipsSnoc(breakdown, s4, Writing);
    assert TipFor(breakdown, Writing) == [];
    assert s4 + [Writing] == Skills;
  }

  /** A skill's tip is among the skill tips exactly when that skill is weak. */
  lemma TipListedIffWeak(breakdown: map<Skill, SkillResult>, s: Skill)
    requires forall s :: s in Skills ==> s in breakdown
    requires s != Writing
    ensures SkillTip(s).value in SkillTips(breakdown, Skills) <==> Weak(breakdown[s])
  {
    SkillTipsOfSkills(breakdown);
    TipInTipFor(breakdown, s, Grammar);
    TipInTipFor(breakdown, s, Vocabulary);
    TipInTipFor(breakdown, s, Reading);
    TipInTipFor(breakdown, s, Listening);
  }

  /** The skill tips never include a level tip. */
  lemma {:induction false} SkillTipsNoLevelTip(breakdown: map<Skill, SkillResult>, skills: seq<Skill>)
    ensures forall k :: 0 <= k < |SkillTips(breakdown, skills)| ==> !SkillTips(breakdown, skills)[k].LevelTip?
  {
    if skills != [] {
      SkillTipsNoLevelTip(breakdown, skills[..|skills| - 1]);
    }
  }

  /**
   * The recommendation list: a skill's tip is present exactly when that skill
   * has points and scored under 70%; writing never gets one; the level tip
   * comes last and only there; there are at most five entries.
   */
  lemma RecommendationsShape(breakdown: map<Skill, SkillResult>, level: Level)
    requires forall s :: s in Skills ==> s in breakdown
    ensures var recs := SkillTips(breakdown, Skills) + [LevelTip(level)];
      && 1 <= |recs| <= 5
      && recs[|recs| - 1] == LevelTip(level)
      && (forall s :: s != Writing ==> (SkillTip(s).value in recs[..|recs| - 1] <==> Weak(breakdown[s])))
      && (forall k :: 0 <= k < |recs| - 1 ==> !recs[k].LevelTip?)
  {
    SkillTipsOfSkills(breakdown);
    SkillTipsNoLevelTip(breakdown, Skills);
    var tips := SkillTips(breakdown, Skills);
    var recs := tips + [LevelTip(level)];
    assert recs[..|recs| - 1] == tips;
    forall s | s != Writing
      ensures SkillTip(s).value in tips <==> Weak(breakdown[s])
    {
      TipListedIffWeak(breakdown, s);
    }
  }

  /** A skill's tip occurs in another skill's contribution never, in its own exactly when it is weak. */
  lemma TipInTipFor(breakdown: map<Skill, SkillResult>, s: Skill, s2: Skill)
    requires s != Writing && s2 in breakdown && s in breakdown
    ensures SkillTip(s).value in TipFor(breakdown, s2) <==> s == s2 && Weak(breakdown[s])
    ensures forall t :: t in TipFor(breakdown, s2) ==> !t.LevelTip?
  {
  }
}
