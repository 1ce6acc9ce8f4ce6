/**
 * The end screen's grade and its save-score guard.
 */
module EndScreen {
  import opened Wrappers
  import Text
  import Config
  import QuizGame
  import Resolvers

  datatype Grade = S | A | B | C | D | F

  /** The percentage a grade needs (`F` needs nothing). */
  function Threshold(g: Grade): nat {
    match g
    case S => 90
    case A => 80
    case B => 70
    case C => 60
    case D => 50
    case F => 0
  }

  /** The next better grade. */
  function Better(g: Grade): Grade
    requires g != S
  {
    match g
    case A => S
    case B => A
    case C => B
    case D => C
    case F => D
  }

  /** Reaching `percentage >= Threshold(g)` with `percentage = correct / total * 100`, for a
      positive total, compared without division. */
  predicate Reaches(correct: int, total: int, g: Grade)
    requires total > 0
  {
    100 * correct >= Threshold(g) * total
  }

  /** `getGrade`: the thresholds tried from the top. A total of zero gives `NaN` when nothing
      is correct (every comparison fails: `F`) and `Infinity` otherwise (`S`). For a positive
      total the grade is the best one whose threshold is reached. */
  function GetGrade(correct: nat, total: nat): (g: Grade)
    ensures total == 0 ==> g == (if correct > 0 then S else F)
    ensures total > 0 ==> Reaches(correct, total, g)
    ensures total > 0 && g != S ==> !Reaches(correct, total, Better(g))
  {
    if total == 0 then (if correct > 0 then S else F)
    else if 100 * correct >= 90 * total then S
    else if 100 * correct >= 80 * total then A
    else if 100 * correct >= 70 * total then B
    else if 100 * correct >= 60 * total then C
    else if 100 * correct >= 50 * total then D
    else F
  }

  /** Ordering of grades, `F` lowest. */
  function Rank(g: Grade): nat {
    match g
    case S => 5
    case A => 4
    case B => 3
    case C => 2
    case D => 1
    case F => 0
  }

  /** For a fixed total, more correct answers never lower the grade. */
  lemma GradeMonotone(c1: nat, c2: nat, total: nat)
    requires c1 <= c2
    ensures Rank(GetGrade(c1, total)) <= Rank(GetGrade(c2, total))
  {
  }

  /** The grade shown for a finished game: the total is correct plus wrong answers, so a game
      with no answered question gets `F`. */
  function GameGrade(g: QuizGame.GameState): (r: Grade)
    ensures g.correctAnswers + g.wrongAnswers == 0 ==> r == F
    ensures g.wrongAnswers == 0 && g.correctAnswers > 0 ==> r == S
    ensures r == GetGrade(g.correctAnswers, g.correctAnswers + g.wrongAnswers)
  {
    GetGrade(g.correctAnswers, g.correctAnswers + g.wrongAnswers)
  }

  /** `handleSaveScore`: a blank name sends nothing; otherwise the mutation gets the trimmed
      name and the game's score. */
  function SaveScoreRequest(playerName: string, score: int): (r: Option<(string, int)>)
    ensures r.None? <==> Text.AllWhitespace(playerName)
    ensures r.Some? ==> r.value == (Text.Trim(playerName), score)
  {
    Text.TrimEmptyIffBlank(playerName);
    if Text.Trim(playerName) == [] then None else Some((Text.Trim(playerName), score))
  }

  /** What the end screen sends passes the server's checks whenever the name has at most 50
      characters after trimming and the score is in range, and the server stores the name as
      sent. */
  lemma RequestAcceptedByServer(playerName: string, score: int)
    requires SaveScoreRequest(playerName, score).Some?
    requires |Text.Trim(playerName)| <= Config.MAX_NAME_LENGTH
    requires Config.MIN_SCORE <= score <= Config.MAX_SCORE
    ensures var (name, s) := SaveScoreRequest(playerName, score).value;
      Resolvers.ValidateSaveScore(name, s) == Ok((name, s))
  {
    Text.TrimIdempotent(playerName);
  }
}
