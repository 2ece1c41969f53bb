/**
 * The three ways the application turns a percentage into a CEFR level: the
 * calculator's inclusive ranges, the session's `estimateCEFR` upper bounds
 * and the placement page's `getLevel` lower bounds. They are compared on the
 * same percentage (for `estimateCEFR`, a score out of 100 questions).
 */
module LevelTables {
  import opened Js
  import opened Levels
  import CefrCalculator
  import DataUtils
  import TestPage

  function Calculator(p: nat): Level {
    CefrCalculator.CalculateCEFRLevel(Val(p))
  }

  function Estimate(p: nat): Level {
    match DataUtils.EstimateLevel(p, 100)
    case Some(l) => l
    case None => A1
  }

  function Placement(p: nat): Level {
    TestPage.GetLevel(p)
  }

  /** The same 45% is A2 for the calculator, B1 for the estimate and A1 for the placement page. */
  lemma ThreeAnswersAtFortyFive()
    ensures Calculator(45) == A2 && Estimate(45) == B1 && Placement(45) == A1
  {
    CefrCalculator.LevelOfPercentage(Val(45));
    DataUtils.EstimateBands(45, 100);
  }

  /** All three agree at the ends of the scale. */
  lemma AgreeAtEnds()
    ensures Calculator(0) == Estimate(0) == Placement(0) == A1
    ensures Calculator(100) == Estimate(100) == Placement(100) == C2
  {
    CefrCalculator.LevelOfPercentage(Val(0));
    CefrCalculator.LevelOfPercentage(Val(100));
    DataUtils.EstimateBands(0, 100);
    DataUtils.EstimateBands(100, 100);
  }

  /**
   * On 0-100 the estimate is never below the calculator and at most two
   * levels above it (34% is B1 against A1).
   */
  lemma EstimateAtOrAboveCalculator(p: nat)
    requires p <= 100
    ensures Rank(Calculator(p)) <= Rank(Estimate(p)) <= Rank(Calculator(p)) + 2
  {
    CefrCalculator.LevelOfPercentage(Val(p));
    DataUtils.EstimateBands(p, 100);
  }

  lemma EstimateTwoAboveAtThirtyFour()
    ensures Calculator(34) == A1 && Estimate(34) == B1
  {
    CefrCalculator.LevelOfPercentage(Val(34));
    DataUtils.EstimateBands(34, 100);
  }

  /**
   * On 0-100 the placement page and the calculator differ by at most one
   * level, in both directions: 45% is lower on the page, 90% higher.
   */
  lemma PlacementWithinOneOfCalculator(p: nat)
    requires p <= 100
    ensures Rank(Placement(p)) <= Rank(Calculator(p)) + 1
    ensures Rank(Calculator(p)) <= Rank(Placement(p)) + 1
  {
    CefrCalculator.LevelOfPercentage(Val(p));
  }

  lemma PlacementHigherAtNinety()
    ensures Calculator(90) == C1 && Placement(90) == C2
  {
    CefrCalculator.LevelOfPercentage(Val(90));
  }
}
