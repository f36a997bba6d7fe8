/** Letter grades: the score-to-letter step function shared by the upload
    route, the e-mail service and the browser front end, and the
    encouragement message chosen by the same bands. */
module Grading {

  datatype Grade = A | B | C | D | F

  /** The grade as the one-letter string stored and rendered. */
  function Letter(g: Grade): (s: string)
    ensures |s| == 1
  {
    match g
    case A => "A"
    case B => "B"
    case C => "C"
    case D => "D"
    case F => "F"
  }

  /** Position of a grade in the order F < D < C < B < A. */
  function Rank(g: Grade): nat {
    match g
    case F => 0
    case D => 1
    case C => 2
    case B => 3
    case A => 4
  }

  /** The grade of a score: inclusive lower bounds 90, 80, 70 and 60. */
  function CalculateGrade(score: real): (g: Grade)
    ensures g == A <==> 90.0 <= score
    ensures g == B <==> 80.0 <= score < 90.0
    ensures g == C <==> 70.0 <= score < 80.0
    ensures g == D <==> 60.0 <= score < 70.0
    ensures g == F <==> score < 60.0
  {
    if score >= 90.0 then A
    else if score >= 80.0 then B
    else if score >= 70.0 then C
    else if score >= 60.0 then D
    else F
  }

  /** A higher score never earns a worse grade. */
  lemma GradeMonotone(lo: real, hi: real)
    requires lo <= hi
    ensures Rank(CalculateGrade(lo)) <= Rank(CalculateGrade(hi))
  {
  }

  /** The letter strings of distinct grades differ. */
  lemma LetterInjective(g1: Grade, g2: Grade)
    requires Letter(g1) == Letter(g2)
    ensures g1 == g2
  {
    assert Letter(g1)[0] == Letter(g2)[0];
  }

  const OutstandingMessage := "Outstanding performance! You have demonstrated exceptional understanding of the subject."
  const ExcellentMessage := "Excellent work! You have shown great proficiency in the subject."
  const GoodMessage := "Good job! You have a solid understanding of the material."
  const SatisfactoryMessage := "Satisfactory performance. Consider reviewing areas for improvement."
  const EncourageMessage := "We encourage you to meet with your instructor to discuss improvement strategies."

  /** The message that belongs to each grade band. */
  function MessageFor(g: Grade): string {
    match g
    case A => OutstandingMessage
    case B => ExcellentMessage
    case C => GoodMessage
    case D => SatisfactoryMessage
    case F => EncourageMessage
  }

  /** Distinct grades get distinct messages. */
  lemma MessageForInjective(g1: Grade, g2: Grade)
    requires MessageFor(g1) == MessageFor(g2)
    ensures g1 == g2
  {
    assert MessageFor(g1)[0] == MessageFor(g2)[0];
    assert MessageFor(g1)[1] == MessageFor(g2)[1];
  }

  /** The custom message for a score; its own threshold chain picks exactly
      the message of the score's grade band. */
  function CustomMessage(score: real): (m: string)
    ensures m == MessageFor(CalculateGrade(score))
  {
    if score >= 90.0 then OutstandingMessage
    else if score >= 80.0 then ExcellentMessage
    else if score >= 70.0 then GoodMessage
    else if score >= 60.0 then SatisfactoryMessage
    else EncourageMessage
  }

  /** Two scores get the same message exactly when they get the same grade. */
  lemma SameMessageIffSameGrade(s1: real, s2: real)
    ensures CustomMessage(s1) == CustomMessage(s2) <==> CalculateGrade(s1) == CalculateGrade(s2)
  {
    if CustomMessage(s1) == CustomMessage(s2) {
      MessageForInjective(CalculateGrade(s1), CalculateGrade(s2));
    }
  }
}
