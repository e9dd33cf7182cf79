/**
 * The session state of Bug Hunter Arena and its transitions, written as pure functions
 * from the state before an event to the state after it. The `Session` class in module
 * Arena updates its fields in place and is proved to follow these functions.
 */
module Rules {
  import opened Catalog

  datatype Option<T> = None | Some(value: T)

  datatype Phase = Menu | Playing | Complete

  /** The message shown under the snippet; its wording is not modelled, only its kind. */
  datatype Feedback =
    | NoFeedback
    | Correct(level: int)     // the success message with that level's explanation
    | WrongLine
    | TimeUp
    | AllLevelsDone

  /** The seven fields of one game session. */
  datatype State = State(
    level: int,               // 1-based index into the catalog
    score: int,
    timeLeft: int,            // whole seconds
    gameState: Phase,
    selectedLine: Option<int>,
    attempts: int,            // guesses made on the current level
    feedback: Feedback)

  /**
   * A delayed callback scheduled by a guess. A correct guess schedules the advance,
   * which keeps the level and the time left as they were when the line was clicked;
   * a wrong guess schedules clearing the feedback.
   */
  datatype Callback =
    | PendingAdvance(level: int, timeLeft: int)
    | PendingClear

  const StartSeconds := 60
  const LevelTimeBonus := 15

  /** What holds of every session: the level names a catalog entry, counters are not negative. */
  predicate Consistent(s: State) {
    1 <= s.level <= LevelCount && s.score >= 0 && s.timeLeft >= 0 && s.attempts >= 0
  }

  /** A scheduled advance carries values captured from a consistent session. */
  predicate CallbackOk(c: Callback) {
    c.PendingAdvance? ==> 1 <= c.level <= LevelCount && c.timeLeft >= 0
  }

  /** The state before the first start: the menu. */
  function Initial(): (s: State)
    ensures Consistent(s) && s.gameState == Menu
    ensures s.level == 1 && s.score == 0 && s.timeLeft == StartSeconds && s.attempts == 0
    ensures s.selectedLine == None && s.feedback == NoFeedback
  {
    State(1, 0, StartSeconds, Menu, None, 0, NoFeedback)
  }

  /** Starting (or restarting) a game, whatever the phase and progress before. */
  function StartGame(s: State): (r: State)
    ensures Consistent(r) && r.gameState == Playing
    ensures r.level == 1 && r.score == 0 && r.timeLeft == StartSeconds && r.attempts == 0
    ensures r.feedback == NoFeedback && r.selectedLine == None
  {
    s.(gameState := Playing, level := 1, score := 0, timeLeft := StartSeconds, attempts := 0,
       feedback := NoFeedback, selectedLine := None)
  }

  /**
   * One run of the countdown effect: while playing with time left, one second passes;
   * while playing with no time left, the game is over. Otherwise nothing happens.
   */
  function Tick(s: State): (r: State)
    ensures s.gameState == Playing && s.timeLeft > 0 ==> r == s.(timeLeft := s.timeLeft - 1)
    ensures s.gameState == Playing && s.timeLeft == 0 ==>
              r == s.(gameState := Complete, feedback := TimeUp)
    ensures s.gameState != Playing ==> r == s
    ensures r.level == s.level && r.score == s.score && r.attempts == s.attempts
    ensures r.timeLeft <= s.timeLeft
    ensures Consistent(s) ==> Consistent(r)
  {
    if s.gameState == Playing && s.timeLeft > 0 then
      s.(timeLeft := s.timeLeft - 1)
    else if s.timeLeft == 0 && s.gameState == Playing then
      s.(gameState := Complete, feedback := TimeUp)
    else
      s
  }

  /** What a correct guess on the current level earns. */
  function Reward(s: State): (points: int)
    requires Consistent(s)
    ensures points >= 100
    ensures points == Points(ChallengeAt(s.level).difficulty) + (if s.attempts == 0 then 50 else 0)
  {
    var c := ChallengeAt(s.level);
    Points(c.difficulty) + FirstTryBonus(s.attempts)
  }

  /**
   * A guess at `lineIndex` on the current level: returns the new state and the
   * callback the guess schedules.
   */
  function CheckBug(s: State, lineIndex: int): (r: (State, Callback))
    requires Consistent(s)
    ensures Consistent(r.0) && CallbackOk(r.1)
    ensures r.0.selectedLine == Some(lineIndex) && r.0.attempts == s.attempts + 1
    ensures r.0.level == s.level && r.0.timeLeft == s.timeLeft && r.0.gameState == s.gameState
    ensures lineIndex == ChallengeAt(s.level).bugLine ==>
              && r.0.score == s.score + Reward(s)
              && r.0.feedback == Correct(s.level)
              && r.1 == PendingAdvance(s.level, s.timeLeft)
    ensures lineIndex != ChallengeAt(s.level).bugLine ==>
              r.0.score == s.score && r.0.feedback == WrongLine && r.1 == PendingClear
    ensures r.0.score > s.score <==> lineIndex == ChallengeAt(s.level).bugLine
  {
    var c := ChallengeAt(s.level);
    var s' := s.(selectedLine := Some(lineIndex), attempts := s.attempts + 1);
    if lineIndex == c.bugLine then
      var points := Points(c.difficulty);
      var bonus := FirstTryBonus(s.attempts);
      (s'.(score := s.score + points + bonus, feedback := Correct(s.level)),
       PendingAdvance(s.level, s.timeLeft))
    else
      (s'.(feedback := WrongLine), PendingClear)
  }

  /**
   * The delayed callback of a correct guess, run with the level and time left captured
   * when the line was clicked: move to the next level with the time bonus, or finish
   * after the last level. It does not look at the phase.
   */
  function AdvanceOrFinish(s: State, capturedLevel: int, capturedTime: int): (r: State)
    requires 1 <= capturedLevel <= LevelCount
    ensures r.score == s.score
    ensures capturedLevel < LevelCount ==>
              && r.level == capturedLevel + 1
              && r.attempts == 0 && r.feedback == NoFeedback && r.selectedLine == None
              && r.timeLeft == capturedTime + LevelTimeBonus
              && r.gameState == s.gameState
    ensures capturedLevel == LevelCount ==>
              r == s.(gameState := Complete, feedback := AllLevelsDone)
    ensures Consistent(s) && capturedTime >= 0 ==> Consistent(r)
  {
    if capturedLevel < LevelCount then
      s.(level := capturedLevel + 1, attempts := 0, feedback := NoFeedback,
         selectedLine := None, timeLeft := capturedTime + LevelTimeBonus)
    else
      s.(gameState := Complete, feedback := AllLevelsDone)
  }

  /** The delayed callback of a wrong guess: only the feedback goes away. */
  function ClearFeedback(s: State): (r: State)
    ensures r.feedback == NoFeedback
    ensures r.(feedback := s.feedback) == s
    ensures Consistent(s) ==> Consistent(r)
  {
    s.(feedback := NoFeedback)
  }

  /** Runs a scheduled callback. */
  function Fire(s: State, c: Callback): (r: State)
    requires CallbackOk(c)
    ensures Consistent(s) ==> Consistent(r)
    ensures r.score == s.score
    ensures c.PendingClear? ==> r == s.(feedback := NoFeedback)
  {
    match c
    case PendingAdvance(level, timeLeft) => AdvanceOrFinish(s, level, timeLeft)
    case PendingClear => ClearFeedback(s)
  }
}
