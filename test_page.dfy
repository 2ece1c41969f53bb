/**
 * The five-question placement page: answers start unset (-1), the handlers
 * move through the questions, and the result is a rounded percentage mapped
 * to a level by lower bounds.
 */
module TestPage {
  import opened Js
  import opened Levels
  import DataUtils

  /** A question of the page's fixed list; the wording and option texts are not modelled. */
  datatype Question = Question(id: nat, optionCount: nat, correct: int, level: Level)

  /** The `questions` constant: correct option indices 1, 1, 2, 1, 1. */
  const Questions: seq<Question> := [
    Question(1, 4, 1, A1),
    Question(2, 4, 1, A2),
    Question(3, 4, 2, B1),
    Question(4, 4, 1, B2),
    Question(5, 4, 1, C1)]

  /** The slot value of a question not answered yet. */
  const Unanswered := -1

  /** Number of the first n slots holding their question's correct index. */
  function CorrectCount(answers: seq<int>, n: nat): (c: nat)
    requires n <= |answers| && n <= |Questions|
    ensures c <= n
  {
    if n == 0 then 0 else CorrectCount(answers, n - 1) + if answers[n - 1] == Questions[n - 1].correct then 1 else 0
  }

  /** `calculateScore`'s value: the share of correct slots as a rounded percentage. */
  function ScorePercent(answers: seq<int>): nat
    requires |answers| == |Questions|
  {
    RoundRatio(CorrectCount(answers, |Questions|), |Questions|, 100)
  }

  /** Every correct index is an option index, so an unset slot never matches. */
  lemma UnansweredNeverMatches(i: nat)
    requires i < |Questions|
    ensures 0 <= Questions[i].correct < Questions[i].optionCount
    ensures Unanswered != Questions[i].correct
  {
  }

  /** A page where nothing was answered scores 0. */
  lemma {:induction false} FreshPageScoresZero(n: nat)
    requires n <= |Questions|
    ensures CorrectCount(seq(|Questions|, _ => Unanswered), n) == 0
  {
    if n > 0 {
      FreshPageScoresZero(n - 1);
      UnansweredNeverMatches(n - 1);
    }
  }

  /** With five questions every correct answer is worth exactly 20 percent. */
  lemma ScoreInTwenties(answers: seq<int>)
    requires |answers| == |Questions|
    ensures ScorePercent(answers) == 20 * CorrectCount(answers, |Questions|)
    ensures ScorePercent(answers) <= 100
  {
    var c := CorrectCount(answers, |Questions|);
    assert 2 * c * 100 + 5 == 10 * (20 * c) + 5;
  }

  /** `getLevel`: the first lower bound the score reaches, from the top. */
  function GetLevel(score: int): (l: Level)
    ensures l == C2 <==> score >= 90
    ensures l == C1 <==> 80 <= score < 90
    ensures l == B2 <==> 70 <= score < 80
    ensures l == B1 <==> 60 <= score < 70
    ensures l == A2 <==> 50 <= score < 60
    ensures l == A1 <==> score < 50
  {
    if score >= 90 then C2
    else if score >= 80 then C1
    else if score >= 70 then B2
    else if score >= 60 then B1
    else if score >= 50 then A2
    else A1
  }

  /** The text shown for each level. */
  function LevelLabel(l: Level): string {
    match l
    case C2 => "C2 - Proficient"
    case C1 => "C1 - Advanced"
    case B2 => "B2 - Upper Intermediate"
    case B1 => "B1 - Intermediate"
    case A2 => "A2 - Elementary"
    case A1 => "A1 - Beginner"
  }

  /** A higher score never gives a lower level. */
  lemma GetLevelMonotone(s1: int, s2: int)
    requires s1 <= s2
    ensures Rank(GetLevel(s1)) <= Rank(GetLevel(s2))
  {
  }

  /**
   * Scores here are multiples of 20, so A2 and B2 are never awarded: 0-2
   * correct give A1, 3 give B1, 4 give C1 and 5 give C2.
   */
  lemma ReachableLevels(answers: seq<int>)
    requires |answers| == |Questions|
    ensures GetLevel(ScorePercent(answers)) in {A1, B1, C1, C2}
    ensures GetLevel(ScorePercent(answers)) == C2 <==> CorrectCount(answers, |Questions|) == 5
    ensures GetLevel(ScorePercent(answers)) == C1 <==> CorrectCount(answers, |Questions|) == 4
    ensures GetLevel(ScorePercent(answers)) == B1 <==> CorrectCount(answers, |Questions|) == 3
  {
    ScoreInTwenties(answers);
  }

  /** `formatTime`: floored minutes, unpadded; the remainder keeps the sign of the input and is padded to 2. */
  function FormatTime(seconds: int): string {
    var mins := seconds / 60;
    var secs := TruncRem(seconds, 60);
    IntToString(mins) + ":" + PadStart2(IntToString(secs))
  }

  /** For a non-negative time: plain minutes, colon, two-digit seconds. */
  lemma FormatTimeNonNegative(seconds: int)
    requires seconds >= 0
    ensures FormatTime(seconds) == NatToString(seconds / 60) + ":" + PadStart2(NatToString(seconds % 60))
  {
    assert TruncRem(seconds, 60) == seconds % 60;
    assert IntToString(seconds / 60) == NatToString(seconds / 60);
    assert IntToString(seconds % 60) == NatToString(seconds % 60);
  }

  /** A non-negative time reads back to itself. */
  lemma FormatTimeRoundTrip(seconds: int)
    requires seconds >= 0
    ensures DataUtils.ParseClock(FormatTime(seconds)) == Some(seconds)
  {
    FormatTimeNonNegative(seconds);
    var q, r := seconds / 60, seconds % 60;
    var mm, ss := NatToString(q), PadStart2(NatToString(r));
    ParseNatToString(q);
    ParsePadded(r);
    DataUtils.TwoDigits(r);
    DataUtils.ClockReadsAs(FormatTime(seconds), mm, ss, seconds);
  }

  /** The page's 30-minute allowance and a one-minute-five reading. */
  lemma FormatTimeExamples()
    ensures FormatTime(1800) == "30:00"
    ensures FormatTime(65) == "1:05"
  {
    assert NatToString(30) == "30";
  }

  /** A negative time shows floored minutes and a signed remainder: -5 seconds read "-1:-5". */
  lemma FormatTimeNegative()
    ensures FormatTime(-5) == "-1:-5"
  {
    assert -5 / 60 == -1;
    assert TruncRem(-5, 60) == -5;
    assert IntToString(-1) == "-1";
    assert IntToString(-5) == "-5";
  }

  /** The page state: `currentQuestion`, `answers`, `timeLeft` and `isCompleted`. */
  class Page {
    var currentQuestion: int
    var answers: seq<int>
    var timeLeft: int
    var isCompleted: bool

    /** One slot per question, and the current question exists. */
    predicate Valid()
      reads this
    {
      |answers| == |Questions| && 0 <= currentQuestion < |Questions|
    }

    /** Initial state: first question, every slot -1, 1800 seconds, not completed. */
    constructor()
      ensures currentQuestion == 0 && answers == seq(|Questions|, _ => Unanswered)
      ensures timeLeft == 1800 && !isCompleted
      ensures Valid()
    {
      currentQuestion := 0;
      answers := seq(|Questions|, _ => Unanswered);
      timeLeft := 1800;
      isCompleted := false;
    }

    /** `handleAnswerSelect`: overwrite the current slot only. */
    method HandleAnswerSelect(answerIndex: int)
      requires Valid()
      modifies this`answers
      ensures answers == old(answers)[currentQuestion := answerIndex]
      ensures answerIndex != Unanswered ==> !NextDisabled()
      ensures Valid()
    {
      answers := answers[currentQuestion := answerIndex];
    }

    /** `handleNext`: advance, or on the last question mark the test completed. */
    method HandleNext()
      requires Valid()
      modifies this`currentQuestion, this`isCompleted
      ensures old(currentQuestion) < |Questions| - 1 ==> currentQuestion == old(currentQuestion) + 1 && isCompleted == old(isCompleted)
      ensures old(currentQuestion) == |Questions| - 1 ==> currentQuestion == old(currentQuestion) && isCompleted
      ensures Valid()
    {
      if currentQuestion < |Questions| - 1 {
        currentQuestion := currentQuestion + 1;
      } else {
        isCompleted := true;
      }
    }

    /** `handlePrevious`: step back unless on the first question. */
    method HandlePrevious()
      requires Valid()
      modifies this`currentQuestion
      ensures currentQuestion == if old(currentQuestion) > 0 then old(currentQuestion) - 1 else 0
      ensures Valid()
    {
      if currentQuestion > 0 {
        currentQuestion := currentQuestion - 1;
      }
    }

    /** `calculateScore`: count the slots equal to their question's correct index, then round the share. */
    method CalculateScore() returns (score: nat)
      requires Valid()
      ensures score == ScorePercent(answers)
      ensures score <= 100
    {
      var correct := 0;
      var index := 0;
      while index < |answers|
        invariant 0 <= index <= |answers|
        invariant correct == CorrectCount(answers, index)
      {
        if answers[index] == Questions[index].correct {
          correct := correct + 1;
        }
        index := index + 1;
      }
      score := RoundRatio(correct, |Questions|, 100);
    }

    /** The Next/Finish button is disabled while the current slot is unset. */
    predicate NextDisabled()
      requires Valid()
      reads this
    {
      answers[currentQuestion] == Unanswered
    }

    /** The Previous button is disabled on the first question. */
    predicate PreviousDisabled()
      requires Valid()
      reads this
    {
      currentQuestion == 0
    }

    /** The forward button reads "Finish Test" on the last question. */
    function NextLabel(): string
      requires Valid()
      reads this
    {
      if currentQuestion == |Questions| - 1 then "Finish Test" else "Next"
    }
  }
}
