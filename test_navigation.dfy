/**
 * The progress panel beside the adaptive test: each question's status, the
 * answered count and completion percentage, the per-skill rows and the
 * navigation buttons.
 */
module TestNavigation {
  import opened Js
  import opened CefrCalculator

  /** `answers[q.id] !== undefined`: any stored value, null and 0 included, counts. */
  predicate HasAnswer(answers: map<string, Answer>, q: Question) {
    Lookup(answers, q.id) != Undefined
  }

  datatype Status = Current | Answered | Unanswered

  /** `getQuestionStatus`: being current outranks being answered. */
  function GetQuestionStatus(answers: map<string, Answer>, currentIndex: int, q: Question, index: int): Status {
    if index == currentIndex then Current
    else if HasAnswer(answers, q) then Answered
    else Unanswered
  }

  /** A stored null or 0 marks a question answered, and the current question always shows as current. */
  lemma StatusFacts(answers: map<string, Answer>, currentIndex: int, q: Question, index: int)
    ensures index != currentIndex && q.id in answers && answers[q.id] in {Null, Index(0), Text("")} ==>
      GetQuestionStatus(answers, currentIndex, q, index) == Answered
    ensures GetQuestionStatus(answers, currentIndex, q, currentIndex) == Current
    ensures GetQuestionStatus(answers, currentIndex, q, index) == Unanswered <==>
      index != currentIndex && !HasAnswer(answers, q)
  {
  }

  /** `questions.filter((q) => answers[q.id] !== undefined).length`. */
  function AnsweredCount(qs: seq<Question>, answers: map<string, Answer>): (c: nat)
    ensures c <= |qs|
    ensures c == |qs| <==> forall k :: 0 <= k < |qs| ==> HasAnswer(answers, qs[k])
  {
    if qs == [] then 0
    else
      var rest := AnsweredCount(qs[..|qs| - 1], answers);
      assert forall k :: 0 <= k < |qs| - 1 ==> qs[..|qs| - 1][k] == qs[k];
      rest + if HasAnswer(answers, qs[|qs| - 1]) then 1 else 0
  }

  /** `Math.round(answeredCount / questions.length * 100)`; an empty list gives NaN. */
  function CompletionPercentage(qs: seq<Question>, answers: map<string, Answer>): (p: Num)
    ensures qs == [] <==> p.NaN?
    ensures p.Val? ==> p.v <= 100
    ensures p.Val? && AnsweredCount(qs, answers) == |qs| ==> p.v == 100
    ensures p.Val? && AnsweredCount(qs, answers) == 0 ==> p.v == 0
  {
    if qs == [] then NaN else Val(RoundRatio(AnsweredCount(qs, answers), |qs|, 100))
  }

  /** The completion button's text. */
  function CompleteLabel(qs: seq<Question>, answers: map<string, Answer>): string {
    if AnsweredCount(qs, answers) == |qs| then "Complete Test" else "Finish Early"
  }

  /** "Complete Test" shows exactly when every question has an answer. */
  lemma CompleteLabelMeaning(qs: seq<Question>, answers: map<string, Answer>)
    ensures CompleteLabel(qs, answers) == "Complete Test" <==> forall k :: 0 <= k < |qs| ==> HasAnswer(answers, qs[k])
  {
  }

  /** The rounded percentage reaches 100 one question early on a long test: 399 of 400 shows 100%. */
  lemma RoundedCompletionReachesHundredEarly()
    ensures RoundRatio(399, 400, 100) == 100
  {
  }

  /** The questions of one skill. */
  function OfSkill(qs: seq<Question>, s: Skill): (r: seq<Question>)
    ensures |r| <= |qs|
    ensures forall q :: q in r <==> q in qs && q.skillArea == s
  {
    if qs == [] then []
    else
      var rest := OfSkill(qs[..|qs| - 1], s);
      assert forall q :: q in qs <==> q in qs[..|qs| - 1] || q == qs[|qs| - 1];
      if qs[|qs| - 1].skillArea == s then rest + [qs[|qs| - 1]] else rest
  }

  /** One line of the skill breakdown: answered out of total. */
  datatype SkillRow = SkillRow(skill: Skill, answered: nat, total: nat)

  /** The skills the breakdown lists, in display order; writing is not among them. */
  const ListedSkills: seq<Skill> := [Grammar, Vocabulary, Reading, Listening]

  /** The rows for the given skills, skipping skills without questions. */
  function Rows(qs: seq<Question>, answers: map<string, Answer>, skills: seq<Skill>): seq<SkillRow> {
    if skills == [] then []
    else
      var rest := Rows(qs, answers, skills[1..]);
      var ofSkill := OfSkill(qs, skills[0]);
      if |ofSkill| == 0 then rest
      else [SkillRow(skills[0], AnsweredCount(ofSkill, answers), |ofSkill|)] + rest
  }

  /** The skill breakdown. */
  function SkillRows(qs: seq<Question>, answers: map<string, Answer>): seq<SkillRow> {
    Rows(qs, answers, ListedSkills)
  }

  lemma {:induction false} RowsFacts(qs: seq<Question>, answers: map<string, Answer>, skills: seq<Skill>)
    ensures forall r :: r in Rows(qs, answers, skills) ==>
              r.skill in skills && 1 <= r.total && r.answered <= r.total
              && r.total == |OfSkill(qs, r.skill)| && r.answered == AnsweredCount(OfSkill(qs, r.skill), answers)
    ensures forall s :: s in skills ==>
              ((exists r :: r in Rows(qs, answers, skills) && r.skill == s) <==> exists q :: q in qs && q.skillArea == s)
  {
    if skills != [] {
      RowsFacts(qs, answers, skills[1..]);
      var ofSkill := OfSkill(qs, skills[0]);
      if |ofSkill| > 0 {
        assert ofSkill[0] in ofSkill;
      }
      forall s | s in skills
        ensures (exists r :: r in Rows(qs, answers, skills) && r.skill == s) <==> exists q :: q in qs && q.skillArea == s
      {
        if s == skills[0] {
          if exists q :: q in qs && q.skillArea == s {
            var q :| q in qs && q.skillArea == s;
            assert q in ofSkill;
            var r := SkillRow(skills[0], AnsweredCount(ofSkill, answers), |ofSkill|);
            assert r in Rows(qs, answers, skills);
          }
        } else {
          assert s in skills[1..];
        }
      }
    }
  }

  /**
   * The breakdown lists a skill exactly when it has a question, never
   * writing, and each row's answered count is at most its total.
   */
  lemma SkillRowsMeaning(qs: seq<Question>, answers: map<string, Answer>)
    ensures forall s: Skill :: s in ListedSkills <==> s != Writing
    ensures forall r :: r in SkillRows(qs, answers) ==> r.skill != Writing && 1 <= r.total && r.answered <= r.total
    ensures forall s :: s in ListedSkills ==>
              ((exists r :: r in SkillRows(qs, answers) && r.skill == s) <==> exists q :: q in qs && q.skillArea == s)
  {
    RowsFacts(qs, answers, ListedSkills);
    forall s: Skill
      ensures s in ListedSkills <==> s != Writing
    {
      match s
      case Grammar =>
      case Vocabulary =>
      case Reading =>
      case Listening =>
      case Writing =>
    }
  }

  /** Previous is disabled on the first question. */
  predicate PreviousDisabled(currentIndex: int) {
    currentIndex == 0
  }

  /** Next is disabled on the last question. */
  predicate NextDisabled(qs: seq<Question>, currentIndex: int) {
    currentIndex == |qs| - 1
  }

  /** `navigateToQuestion`: an index outside the list is ignored. */
  function Navigate(qs: seq<Question>, currentIndex: int, index: int): (r: int)
    ensures 0 <= index < |qs| ==> r == index
    ensures !(0 <= index < |qs|) ==> r == currentIndex
  {
    if 0 <= index < |qs| then index else currentIndex
  }

  /**
   * The enabled buttons never move the index out of the list: from a valid
   * index, Previous (when enabled) and Next (when enabled) land on a valid
   * index one step away.
   */
  lemma ButtonsStayInRange(qs: seq<Question>, currentIndex: int)
    requires 0 <= currentIndex < |qs|
    ensures !PreviousDisabled(currentIndex) ==> Navigate(qs, currentIndex, currentIndex - 1) == currentIndex - 1
    ensures !NextDisabled(qs, currentIndex) ==> Navigate(qs, currentIndex, currentIndex + 1) == currentIndex + 1
    ensures 0 <= Navigate(qs, currentIndex, currentIndex - 1) < |qs|
    ensures 0 <= Navigate(qs, currentIndex, currentIndex + 1) < |qs|
  {
  }
}
