/**
  The client-side game state: score, streak, correct count, max streak, the current
  question and the ids of the questions asked so far (lib/store/gameStore.ts).
 */
module GameStore {
  import opened Wrappers
  import opened Types
  import opened Difficulty

  /** The store's data fields. */
  datatype GameState = GameState(
    username: string,
    score: int,
    streak: int,
    correctCount: int,
    maxStreak: int,
    currentQuestion: Option<QuestionData>,
    askedQuestionIds: seq<string>)

  /** The state the store is created with. */
  const InitialState: GameState := GameState("CosmicExplorer", 0, 0, 0, 0, None, [])

  /**
    `applyResult(correct, difficulty = 'easy')`: a correct answer earns the difficulty's
    points and extends the streak; a wrong answer resets the streak; the max streak is a
    running maximum. Nothing else changes.
   */
  function Answered(s: GameState, correct: bool, difficulty: Option<string>): (r: GameState)
    ensures correct ==> r.score == s.score + PointsForDifficulty(difficulty.GetOr("easy"))
    ensures correct ==> r.streak == s.streak + 1 && r.correctCount == s.correctCount + 1
    ensures !correct ==> r.score == s.score && r.streak == 0 && r.correctCount == s.correctCount
    ensures r.maxStreak >= s.maxStreak && r.maxStreak >= r.streak
    ensures r.maxStreak == s.maxStreak || r.maxStreak == r.streak
    ensures r.username == s.username && r.currentQuestion == s.currentQuestion
    ensures r.askedQuestionIds == s.askedQuestionIds
  {
    var d := difficulty.GetOr("easy");
    var newStreak := if correct then s.streak + 1 else 0;
    var newMaxStreak := Max(s.maxStreak, newStreak);
    var points := if correct then PointsForDifficulty(d) else 0;
    var newScore := if correct then s.score + points else s.score;
    s.(score := newScore, streak := newStreak, maxStreak := newMaxStreak,
       correctCount := if correct then s.correctCount + 1 else s.correctCount)
  }

  /**
    `initializeFromDB(score, streak)`: adopt the server's score and streak, take the
    streak as max streak and reset the correct count; the rest is kept.
   */
  function FromDB(s: GameState, score: int, streak: int): (r: GameState)
    ensures r.score == score && r.streak == streak && r.maxStreak == streak && r.correctCount == 0
    ensures r.username == s.username && r.currentQuestion == s.currentQuestion
    ensures r.askedQuestionIds == s.askedQuestionIds
  {
    s.(score := score, streak := streak, maxStreak := streak, correctCount := 0)
  }

  /** One answer the player gives. */
  datatype Answer = Answer(correct: bool, difficulty: Option<string>)

  /** The state after a sequence of `applyResult` calls, oldest first. */
  function Play(s: GameState, answers: seq<Answer>): GameState
    decreases |answers|
  {
    if answers == [] then s
    else
      var last := answers[|answers| - 1];
      Answered(Play(s, answers[..|answers| - 1]), last.correct, last.difficulty)
  }

  /** Points of the correct answers in a sequence. */
  function Earned(answers: seq<Answer>): nat
    decreases |answers|
  {
    if answers == [] then 0
    else
      var last := answers[|answers| - 1];
      Earned(answers[..|answers| - 1])
        + (if last.correct then PointsForDifficulty(last.difficulty.GetOr("easy")) else 0)
  }

  /** Number of correct answers in a sequence. */
  function CorrectAnswers(answers: seq<Answer>): nat
    decreases |answers|
  {
    if answers == [] then 0
    else CorrectAnswers(answers[..|answers| - 1]) + (if answers[|answers| - 1].correct then 1 else 0)
  }

  /** Length of the run of correct answers at the end of a sequence. */
  function TrailingCorrect(answers: seq<Answer>): nat
    decreases |answers|
  {
    if answers == [] || !answers[|answers| - 1].correct then 0
    else TrailingCorrect(answers[..|answers| - 1]) + 1
  }

  /**
    Over any sequence of answers the score grows by exactly the points of the correct
    ones (so it never decreases), the correct count by their number, the max streak
    never decreases, and the username, question and asked ids are untouched.
   */
  lemma {:induction false} PlayTotals(s: GameState, answers: seq<Answer>)
    ensures Play(s, answers).score == s.score + Earned(answers)
    ensures Play(s, answers).score >= s.score
    ensures Play(s, answers).correctCount == s.correctCount + CorrectAnswers(answers)
    ensures Play(s, answers).maxStreak >= s.maxStreak
    ensures Play(s, answers).username == s.username
    ensures Play(s, answers).askedQuestionIds == s.askedQuestionIds
    decreases |answers|
  {
    if answers != [] {
      PlayTotals(s, answers[..|answers| - 1]);
    }
  }

  /**
    The streak after a sequence is the run of correct answers at its end, added to the
    old streak only when no answer was wrong; and the max streak is never below it.
   */
  lemma {:induction false} PlayStreak(s: GameState, answers: seq<Answer>)
    requires s.maxStreak >= s.streak
    ensures TrailingCorrect(answers) == |answers| ==> Play(s, answers).streak == s.streak + |answers|
    ensures TrailingCorrect(answers) < |answers| ==> Play(s, answers).streak == TrailingCorrect(answers)
    ensures Play(s, answers).maxStreak >= Play(s, answers).streak
    decreases |answers|
  {
    if answers != [] {
      var prefix := answers[..|answers| - 1];
      PlayStreak(s, prefix);
      assert TrailingCorrect(prefix) <= |prefix| by { TrailingBound(prefix); }
    }
  }

  lemma {:induction false} TrailingBound(answers: seq<Answer>)
    ensures TrailingCorrect(answers) <= |answers|
    decreases |answers|
  {
    if answers != [] {
      TrailingBound(answers[..|answers| - 1]);
    }
  }

  /** The game store: each action overwrites some fields, as `set` does in the store. */
  class Store {
    var username: string
    var score: int
    var streak: int
    var correctCount: int
    var maxStreak: int
    var currentQuestion: Option<QuestionData>
    var askedQuestionIds: seq<string>

    /** The store's fields as one value. */
    ghost function State(): GameState
      reads this
    {
      GameState(username, score, streak, correctCount, maxStreak, currentQuestion, askedQuestionIds)
    }

    /** A new store holds the initial state: counters 0, no question, no asked ids. */
    constructor ()
      ensures State() == InitialState
    {
      username := "CosmicExplorer";
      score, streak, correctCount, maxStreak := 0, 0, 0, 0;
      currentQuestion := None;
      askedQuestionIds := [];
    }

    method SetUsername(name: string)
      modifies this
      ensures State() == old(State()).(username := name)
    {
      username := name;
    }

    method SetQuestion(question: QuestionData)
      modifies this
      ensures State() == old(State()).(currentQuestion := Some(question))
    {
      currentQuestion := Some(question);
    }

    method SetScore(newScore: int)
      modifies this
      ensures State() == old(State()).(score := newScore)
    {
      score := newScore;
    }

    method SetStreak(newStreak: int)
      modifies this
      ensures State() == old(State()).(streak := newStreak)
    {
      streak := newStreak;
    }

    method SetMaxStreak(newMaxStreak: int)
      modifies this
      ensures State() == old(State()).(maxStreak := newMaxStreak)
    {
      maxStreak := newMaxStreak;
    }

    method ResetCorrectCount()
      modifies this
      ensures State() == old(State()).(correctCount := 0)
    {
      correctCount := 0;
    }

    /** Appends at the end, keeping order and duplicates. */
    method AddAskedQuestion(questionId: string)
      modifies this
      ensures State() == old(State()).(askedQuestionIds := old(askedQuestionIds) + [questionId])
    {
      askedQuestionIds := askedQuestionIds + [questionId];
    }

    method ResetAskedQuestions()
      modifies this
      ensures State() == old(State()).(askedQuestionIds := [])
    {
      askedQuestionIds := [];
    }

    method ApplyResult(correct: bool, difficulty: Option<string>)
      modifies this
      ensures State() == Answered(old(State()), correct, difficulty)
    {
      var d := difficulty.GetOr("easy");
      var newStreak := if correct then streak + 1 else 0;
      var newMaxStreak := Max(maxStreak, newStreak);
      var points := if correct then PointsForDifficulty(d) else 0;
      var newScore := if correct then score + points else score;
      score, streak, maxStreak := newScore, newStreak, newMaxStreak;
      correctCount := if correct then correctCount + 1 else correctCount;
    }

    method InitializeFromDB(dbScore: int, dbStreak: int)
      modifies this
      ensures State() == FromDB(old(State()), dbScore, dbStreak)
    {
      score, streak, maxStreak, correctCount := dbScore, dbStreak, dbStreak, 0;
    }
  }
}
