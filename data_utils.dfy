/**
 * The helpers of the data layer: the `MM:SS` timer label, the coarse CEFR
 * estimate from a raw score, and the in-place Fisher-Yates shuffle.
 */
module DataUtils {
  import opened Js
  import opened Levels

  // ------------------------------------------------------------- formatTime

  /** `formatTime`: negative inputs clamp to 0, then zero-padded minutes and seconds. */
  function FormatTime(totalSeconds: int): string {
    var t := if totalSeconds < 0 then 0 else totalSeconds;
    var minutes := NatToString(t / 60);
    var seconds := NatToString(t % 60);
    PadStart2(minutes) + ":" + PadStart2(seconds)
  }

  /** Reads a `MM:SS` label back to a number of seconds. */
  function ParseClock(clock: string): Option<nat> {
    var parts := Split(clock, ':');
    if |parts| == 2 && AllDigits(parts[0]) && AllDigits(parts[1]) && |parts[1]| == 2
    then Some(ParseDigits(parts[0]) * 60 + ParseDigits(parts[1]))
    else None
  }

  /**
   * The label reads back as the clamped number of seconds: two colon-separated
   * digit fields, the seconds field exactly two digits and below 60.
   */
  lemma FormatTimeRoundTrip(totalSeconds: int)
    ensures ParseClock(FormatTime(totalSeconds)) == Some(if totalSeconds < 0 then 0 else totalSeconds)
    ensures var parts := Split(FormatTime(totalSeconds), ':');
      |parts| == 2 && |parts[0]| >= 2 && |parts[1]| == 2 && ParseDigits(parts[1]) < 60
  {
    var t: nat := if totalSeconds < 0 then 0 else totalSeconds;
    var q, r := t / 60, t % 60;
    var mm, ss := PadStart2(NatToString(q)), PadStart2(NatToString(r));
    ParsePadded(q);
    ParsePadded(r);
    TwoDigits(r);
    ParseClockOf(mm, ss);
    assert FormatTime(totalSeconds) == mm + ":" + ss;
    assert t == q * 60 + r;
  }

  /** A digit field, a colon and a two-digit field read back as minutes and seconds. */
  lemma ParseClockOf(mm: string, ss: string)
    requires AllDigits(mm) && AllDigits(ss) && |ss| == 2
    ensures Split(mm + ":" + ss, ':') == [mm, ss]
    ensures ParseClock(mm + ":" + ss) == Some(ParseDigits(mm) * 60 + ParseDigits(ss))
  {
    SplitClock(mm, ss);
  }

  /** A label made of such fields reads back as the number of seconds they spell. */
  lemma ClockReadsAs(clock: string, mm: string, ss: string, seconds: nat)
    requires clock == mm + ":" + ss
    requires AllDigits(mm) && AllDigits(ss) && |ss| == 2
    requires ParseDigits(mm) * 60 + ParseDigits(ss) == seconds
    ensures ParseClock(clock) == Some(seconds)
  {
    ParseClockOf(mm, ss);
  }

  /**
   * Every negative time shows as "00:00", and the minutes field widens past
   * two digits instead of wrapping: 6000 seconds read "100:00".
   */
  lemma FormatTimeExamples(negative: int)
    requires negative < 0
    ensures FormatTime(negative) == FormatTime(0) == "00:00"
    ensures FormatTime(6000) == "100:00"
  {
    assert NatToString(100) == "100" by {
      assert NatToString(10) == "10";
    }
  }

  /** A number below 100 prints in at most two digits. */
  lemma TwoDigits(n: nat)
    requires n < 100
    ensures |NatToString(n)| <= 2
  {
    if n >= 10 {
      assert NatToString(n) == NatToString(n / 10) + [DigitChar(n % 10)];
    }
  }

  /** Two digit fields joined by a colon split back into those fields. */
  lemma SplitClock(mm: string, ss: string)
    requires AllDigits(mm) && AllDigits(ss)
    ensures Split(mm + ":" + ss, ':') == [mm, ss]
  {
    DigitsHaveNoColon(mm);
    DigitsHaveNoColon(ss);
    SplitAtSep(mm, ss, ':');
    SplitNoSep(ss, ':');
  }

  lemma DigitsHaveNoColon(s: string)
    requires AllDigits(s)
    ensures ':' !in s
  {
  }

  // ----------------------------------------------------------- estimateCEFR

  /** `score / total * 100 <= bound`, compared exactly (the sign of total decides the direction). */
  predicate PercentAtMost(score: int, total: int, bound: int)
    requires total != 0
  {
    if total > 0 then 100 * score <= bound * total else 100 * score >= bound * total
  }

  /** `estimateCEFR` as a level: none (`'N/A'`) for zero questions, else the first band holding the percentage. */
  function EstimateLevel(score: int, total: int): Option<Level> {
    if total == 0 then None
    else if PercentAtMost(score, total, 16) then Some(A1)
    else if PercentAtMost(score, total, 33) then Some(A2)
    else if PercentAtMost(score, total, 50) then Some(B1)
    else if PercentAtMost(score, total, 66) then Some(B2)
    else if PercentAtMost(score, total, 83) then Some(C1)
    else Some(C2)
  }

  /** The descriptive label of each band. */
  function EstimateLabel(l: Level): string {
    match l
    case A1 => "A1 (Beginner)"
    case A2 => "A2 (Elementary)"
    case B1 => "B1 (Intermediate)"
    case B2 => "B2 (Upper Intermediate)"
    case C1 => "C1 (Advanced)"
    case C2 => "C2 (Proficiency)"
  }

  /** `estimateCEFR`. */
  function EstimateCEFR(score: int, total: int): string {
    match EstimateLevel(score, total)
    case None => "N/A"
    case Some(l) => EstimateLabel(l)
  }

  /** The exact comparison is the real-number comparison of `score / total * 100` with the bound. */
  lemma PercentAtMostIsRealComparison(score: int, total: int, bound: int)
    requires total != 0
    ensures PercentAtMost(score, total, bound) <==> (score as real / total as real) * 100.0 <= bound as real
  {
    var q := score as real / total as real;
    assert q * total as real == score as real;
    if total > 0 {
      assert q * 100.0 <= bound as real <==> q * 100.0 * total as real <= bound as real * total as real;
    } else {
      assert q * 100.0 <= bound as real <==> q * 100.0 * total as real >= bound as real * total as real;
    }
  }

  /** For a positive number of questions the bands, stated on the score: each band is a closed range. */
  lemma EstimateBands(score: int, total: nat)
    requires total > 0
    ensures EstimateLevel(score, total).Some?
    ensures EstimateLevel(score, total) == Some(A1) <==> 100 * score <= 16 * total
    ensures EstimateLevel(score, total) == Some(A2) <==> 16 * total < 100 * score <= 33 * total
    ensures EstimateLevel(score, total) == Some(B1) <==> 33 * total < 100 * score <= 50 * total
    ensures EstimateLevel(score, total) == Some(B2) <==> 50 * total < 100 * score <= 66 * total
    ensures EstimateLevel(score, total) == Some(C1) <==> 66 * total < 100 * score <= 83 * total
    ensures EstimateLevel(score, total) == Some(C2) <==> 83 * total < 100 * score
  {
  }

  /** More correct answers out of the same positive total never lower the estimate. */
  lemma EstimateMonotone(score1: int, score2: int, total: nat)
    requires total > 0 && score1 <= score2
    ensures Rank(EstimateLevel(score1, total).value) <= Rank(EstimateLevel(score2, total).value)
  {
    EstimateBands(score1, total);
    EstimateBands(score2, total);
  }

  /**
   * On the 60-question test the bands are 0-9 A1, 10-19 A2, 20-30 B1, 31-39 B2,
   * 40-49 C1 and 50-60 C2 correct answers.
   */
  lemma SixtyQuestionBands(score: nat)
    requires score <= 60
    ensures EstimateLevel(score, 60) == Some(
      if score <= 9 then A1 else if score <= 19 then A2 else if score <= 30 then B1
      else if score <= 39 then B2 else if score <= 49 then C1 else C2)
  {
    EstimateBands(score, 60);
  }

  /** `'N/A'` is the answer exactly when there are no questions. */
  lemma NotApplicableOnlyWithoutQuestions(score: int, total: int)
    ensures EstimateCEFR(score, total) == "N/A" <==> total == 0
  {
    if total != 0 {
      var l := EstimateLevel(score, total).value;
      assert EstimateLabel(l)[0] != 'N';
    }
  }

  /** Ten correct out of sixty is already A2 (16.67% is above the 16% cut). */
  lemma TenOfSixtyIsElementary()
    ensures EstimateCEFR(10, 60) == "A2 (Elementary)"
  {
    SixtyQuestionBands(10);
  }

  // ----------------------------------------------------------- shuffleArray

  /** s with positions i and j exchanged. */
  function Swap<T>(s: seq<T>, i: nat, j: nat): (r: seq<T>)
    requires i < |s| && j < |s|
    ensures |r| == |s| && r[i] == s[j] && r[j] == s[i]
    ensures forall k :: 0 <= k < |s| && k != i && k != j ==> r[k] == s[k]
  {
    s[i := s[j]][j := s[i]]
  }

  lemma SwapPermutes<T>(s: seq<T>, i: nat, j: nat)
    requires i < |s| && j < |s|
    ensures multiset(Swap(s, i, j)) == multiset(s)
  {
  }

  /**
   * Whether `picks` can be the indices `Math.floor(Math.random() * (i + 1))`
   * drawn for an array of n elements: the k-th pick serves position n-1-k and
   * lies in [0, n-1-k].
   */
  predicate Picks(picks: seq<nat>, n: nat) {
    |picks| + 1 >= n && forall k :: 0 <= k < |picks| && k < n ==> picks[k] <= n - 1 - k
  }

  /** The swaps for positions i, i-1, ..., 1; the swap at position i uses pick |s|-1-i. */
  function ShuffleDown<T>(s: seq<T>, i: nat, picks: seq<nat>): (r: seq<T>)
    requires i < |s| && Picks(picks, |s|)
    ensures |r| == |s|
    decreases i
  {
    if i == 0 then s
    else ShuffleDown(Swap(s, i, picks[|s| - 1 - i]), i - 1, picks)
  }

  /** The whole shuffle of s under the given picks. */
  function Shuffled<T>(s: seq<T>, picks: seq<nat>): seq<T>
    requires Picks(picks, |s|)
  {
    if |s| == 0 then s else ShuffleDown(s, |s| - 1, picks)
  }

  lemma ShuffledUnfold<T>(s: seq<T>, picks: seq<nat>)
    requires |s| > 0 && Picks(picks, |s|)
    ensures Shuffled(s, picks) == ShuffleDown(s, |s| - 1, picks)
  {
  }

  lemma ShuffleDownStep<T>(s: seq<T>, i: nat, picks: seq<nat>, target: seq<T>)
    requires 0 < i < |s| && Picks(picks, |s|)
    requires ShuffleDown(s, i, picks) == target
    ensures picks[|s| - 1 - i] <= i
    ensures ShuffleDown(Swap(s, i, picks[|s| - 1 - i]), i - 1, picks) == target
  {
  }

  lemma ShuffleDownDone<T>(s: seq<T>, picks: seq<nat>, target: seq<T>)
    requires 0 < |s| && Picks(picks, |s|)
    requires ShuffleDown(s, 0, picks) == target
    ensures s == target
  {
  }

  /** The shuffle is a permutation. */
  lemma {:induction false} ShuffleDownPermutes<T>(s: seq<T>, i: nat, picks: seq<nat>)
    requires i < |s| && Picks(picks, |s|)
    ensures multiset(ShuffleDown(s, i, picks)) == multiset(s)
    decreases i
  {
    if i > 0 {
      SwapPermutes(s, i, picks[|s| - 1 - i]);
      ShuffleDownPermutes(Swap(s, i, picks[|s| - 1 - i]), i - 1, picks);
    }
  }

  /** Positions above i are never touched by the swaps at i and below. */
  lemma {:induction false} ShuffleDownKeepsTail<T>(s: seq<T>, i: nat, picks: seq<nat>)
    requires i < |s| && Picks(picks, |s|)
    ensures ShuffleDown(s, i, picks)[i + 1..] == s[i + 1..]
    decreases i
  {
    if i > 0 {
      var t := Swap(s, i, picks[|s| - 1 - i]);
      ShuffleDownKeepsTail(t, i - 1, picks);
      assert t[i + 1..] == s[i + 1..];
    }
  }

  /**
   * The result is a permutation of the input, the last position holds the
   * element chosen by the first pick, and arrays of at most one element are
   * left as they are.
   */
  lemma ShuffledProperties<T>(s: seq<T>, picks: seq<nat>)
    requires Picks(picks, |s|)
    ensures multiset(Shuffled(s, picks)) == multiset(s)
    ensures |s| >= 2 ==> Shuffled(s, picks)[|s| - 1] == s[picks[0]]
    ensures |s| <= 1 ==> Shuffled(s, picks) == s
  {
    if |s| >= 2 {
      var n := |s|;
      ShuffledUnfold(s, picks);
      ShuffleDownPermutes(s, n - 1, picks);
      var t := Swap(s, n - 1, picks[0]);
      ShuffleDownKeepsTail(t, n - 2, picks);
      var r := ShuffleDown(t, n - 2, picks);
      assert r[n - 1] == r[n - 1..][0];
    }
  }

  /** The destructuring swap `[array[i], array[j]] = [array[j], array[i]]`. */
  method SwapInPlace<T>(a: array<T>, i: nat, j: nat)
    requires i < a.Length && j < a.Length
    modifies a
    ensures a[..] == Swap(old(a[..]), i, j)
  {
    a[i], a[j] := a[j], a[i];
  }

  /**
   * `shuffleArray`: Fisher-Yates in place from the last index down to 1; the
   * random picks are a parameter. Returns the same array.
   */
  method ShuffleArray<T>(a: array<T>, picks: seq<nat>) returns (r: array<T>)
    requires Picks(picks, a.Length)
    modifies a
    ensures r == a
    ensures a[..] == Shuffled(old(a[..]), picks)
  {
    if a.Length == 0 {
      return a;
    }
    ghost var s := a[..];
    ghost var target := ShuffleDown(s, a.Length - 1, picks);
    ghost var cur := s;
    var i := a.Length - 1;
    while i > 0
      invariant 0 <= i < a.Length == |cur|
      invariant a[..] == cur
      invariant ShuffleDown(cur, i, picks) == target
      decreases i
    {
      var j := picks[a.Length - 1 - i];
      ShuffleDownStep(cur, i, picks, target);
      SwapInPlace(a, i, j);
      cur := Swap(cur, i, j);
      i := i - 1;
    }
    ShuffleDownDone(cur, picks, target);
    ShuffledUnfold(s, picks);
    return a;
  }
}
