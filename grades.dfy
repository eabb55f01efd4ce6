/** `_score_to_grade`: the letter grade of a score. */
module Grades {
  import opened PyNum

  datatype Grade = APlus | A | B | C | D | F

  function Text(g: Grade): string {
    match g
    case APlus => "A+"
    case A => "A"
    case B => "B"
    case C => "C"
    case D => "D"
    case F => "F"
  }

  /** Position in the order F < D < C < B < A < A+. */
  function Rank(g: Grade): nat {
    match g
    case F => 0
    case D => 1
    case C => 2
    case B => 3
    case A => 4
    case APlus => 5
  }

  /**
   * The score is first rounded (half to even) and the rounded value is
   * compared with the thresholds 90, 80, 70, 60 and 50.
   */
  function ScoreToGrade(score: real): (g: Grade)
    ensures var s := RoundHalfEven(score);
      && (g == APlus <==> s >= 90)
      && (g == A <==> 80 <= s < 90)
      && (g == B <==> 70 <= s < 80)
      && (g == C <==> 60 <= s < 70)
      && (g == D <==> 50 <= s < 60)
      && (g == F <==> s < 50)
  {
    var s := RoundHalfEven(score);
    if s >= 90 then APlus
    else if s >= 80 then A
    else if s >= 70 then B
    else if s >= 60 then C
    else if s >= 50 then D
    else F
  }

  /** A higher score never gets a lower grade. */
  lemma ScoreToGradeMonotone(x: real, y: real)
    requires x <= y
    ensures Rank(ScoreToGrade(x)) <= Rank(ScoreToGrade(y))
  {
    RoundHalfEvenMonotone(x, y);
  }

  /** Scores at the thresholds and just below them. */
  lemma GradeBoundaries()
    ensures ScoreToGrade(90.0) == APlus
    ensures ScoreToGrade(89.99) == APlus
    ensures ScoreToGrade(89.5) == APlus
    ensures ScoreToGrade(89.49) == A
    ensures ScoreToGrade(80.5) == A
    ensures ScoreToGrade(79.5) == A
    ensures ScoreToGrade(49.5) == D
    ensures ScoreToGrade(48.5) == F
  {
    RoundHalfEvenUnique(90.0, 90);
    RoundHalfEvenUnique(89.99, 90);
    RoundHalfEvenUnique(89.5, 90);
    RoundHalfEvenUnique(89.49, 89);
    RoundHalfEvenUnique(80.5, 80);
    RoundHalfEvenUnique(79.5, 80);
    RoundHalfEvenUnique(49.5, 50);
    RoundHalfEvenUnique(48.5, 48);
  }
}
