/**
 * The 1d20 skill check of D&D 5e, as the application resolves it.
 * The d20 roll is drawn at random by the application; here it is a
 * parameter restricted to the faces of the die.
 */
module DiceRoll {

  /** The verdict of a check, as the strings "SUCCESS" and "FAILURE". */
  datatype Outcome = Success | Failure {
    function Text(): string {
      match this
      case Success => "SUCCESS"
      case Failure => "FAILURE"
    }
  }

  /** The tuple (outcome, d20 roll, modifier, roll + modifier), in that order. */
  datatype SkillCheck = SkillCheck(outcome: Outcome, d20Roll: int, modifier: int, total: int)

  predicate IsD20Face(roll: int) {
    1 <= roll <= 20
  }

  /**
   * The ability modifier: the score's distance above 10, halved and rounded
   * down, and never below zero. The contract pins the value down without
   * division: it is 0 up to score 11, and otherwise the unique r with
   * 2r <= score - 10 < 2r + 2.
   */
  function Modifier(abilityScore: int): (r: int)
    ensures r >= 0
    ensures abilityScore <= 11 ==> r == 0
    ensures abilityScore >= 10 ==> 2 * r <= abilityScore - 10 < 2 * r + 2
  {
    // Python's `//` floors; for the divisor 2 this is Dafny's Euclidean `/`.
    var halved := (abilityScore - 10) / 2;
    if halved > 0 then halved else 0
  }

  /** Resolves a check of `abilityScore` against `difficultyClass` with the given d20 roll. */
  function RollSkillCheck(abilityScore: int, difficultyClass: int, d20Roll: int): (r: SkillCheck)
    requires IsD20Face(d20Roll)
    ensures r.d20Roll == d20Roll && r.modifier == Modifier(abilityScore)
    ensures r.total == d20Roll + r.modifier
    ensures 1 + r.modifier <= r.total <= 20 + r.modifier
    ensures r.outcome == Success <==> r.total >= difficultyClass
    ensures r.outcome.Text() == "SUCCESS" || r.outcome.Text() == "FAILURE"
  {
    var modifier := Modifier(abilityScore);
    var total := d20Roll + modifier;
    var outcome := if total >= difficultyClass then Success else Failure;
    SkillCheck(outcome, d20Roll, modifier, total)
  }

  /** Scores 8, 10, 12 and 20 give modifiers 0, 0, 1 and 5. */
  lemma ModifierTable()
    ensures Modifier(8) == 0 && Modifier(10) == 0 && Modifier(12) == 1 && Modifier(20) == 5
  {
  }

  /** A higher ability score never yields a smaller modifier. */
  lemma ModifierMonotone(lower: int, higher: int)
    requires lower <= higher
    ensures Modifier(lower) <= Modifier(higher)
  {
  }

  /** Every two points of score above 10 add exactly one to the modifier. */
  lemma ModifierStep(abilityScore: int)
    requires abilityScore >= 10
    ensures Modifier(abilityScore + 2) == Modifier(abilityScore) + 1
  {
  }

  /** Score 14 against DC 12 with a rolled 6: modifier 2, total 8, a failure. */
  lemma FailedCheckExample()
    ensures RollSkillCheck(14, 12, 6) == SkillCheck(Failure, 6, 2, 8)
    ensures RollSkillCheck(14, 12, 6).outcome.Text() == "FAILURE"
  {
  }

  /** A total exactly equal to the DC succeeds. */
  lemma BoundaryIsSuccess(abilityScore: int, d20Roll: int)
    requires IsD20Face(d20Roll)
    ensures RollSkillCheck(abilityScore, d20Roll + Modifier(abilityScore), d20Roll).outcome == Success
  {
  }

  /** A roll that succeeds still succeeds with any higher roll. */
  lemma HigherRollStillSucceeds(abilityScore: int, difficultyClass: int, roll: int, higher: int)
    requires IsD20Face(roll) && IsD20Face(higher) && roll <= higher
    requires RollSkillCheck(abilityScore, difficultyClass, roll).outcome == Success
    ensures RollSkillCheck(abilityScore, difficultyClass, higher).outcome == Success
  {
  }

  /**
   * Whether a check can go either way depends only on where the DC lies:
   * at most 1 + modifier every roll succeeds, above 20 + modifier every roll fails.
   */
  lemma DecidedByDifficulty(abilityScore: int, difficultyClass: int, d20Roll: int)
    requires IsD20Face(d20Roll)
    ensures difficultyClass <= 1 + Modifier(abilityScore) ==>
              RollSkillCheck(abilityScore, difficultyClass, d20Roll).outcome == Success
    ensures difficultyClass > 20 + Modifier(abilityScore) ==>
              RollSkillCheck(abilityScore, difficultyClass, d20Roll).outcome == Failure
  {
  }
}
