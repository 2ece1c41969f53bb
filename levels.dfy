/** The six CEFR proficiency levels, shared by the three level tables of the application. */
module Levels {

  datatype Level = A1 | A2 | B1 | B2 | C1 | C2

  /** Position of a level on the CEFR scale, A1 lowest. */
  function Rank(l: Level): nat {
    match l
    case A1 => 0
    case A2 => 1
    case B1 => 2
    case B2 => 3
    case C1 => 4
    case C2 => 5
  }

  /** The bare level code, as `CEFRLevel` spells it. */
  function Code(l: Level): string {
    match l
    case A1 => "A1"
    case A2 => "A2"
    case B1 => "B1"
    case B2 => "B2"
    case C1 => "C1"
    case C2 => "C2"
  }
}
