/**
 * The Bug Hunter Arena component as an object: seven fields that its event handlers
 * overwrite one setter at a time. Each handler is proved to leave the fields as the
 * matching function of module Rules says, and to keep the session consistent.
 */
module Arena {
  import opened Catalog
  import Rules

  class Session {
    var level: int
    var score: int
    var timeLeft: int
    var gameState: Rules.Phase
    var selectedLine: Rules.Option<int>
    var attempts: int
    var feedback: Rules.Feedback

    /** The fields as one value. */
    function Snapshot(): Rules.State
      reads this
    {
      Rules.State(level, score, timeLeft, gameState, selectedLine, attempts, feedback)
    }

    ghost predicate Valid()
      reads this
    {
      Rules.Consistent(Snapshot())
    }

    /** The initial field values: the menu, before any game. */
    constructor ()
      ensures Valid()
      ensures Snapshot() == Rules.Initial()
    {
      level := 1;
      score := 0;
      timeLeft := Rules.StartSeconds;
      gameState := Rules.Menu;
      selectedLine := Rules.None;
      attempts := 0;
      feedback := Rules.NoFeedback;
    }

    /** The challenge on screen. */
    function CurrentChallenge(): (c: Challenge)
      reads this
      requires Valid()
      ensures c.level == level && 0 <= c.bugLine < |c.code|
    {
      ChallengeAt(level)
    }

    /** The start and replay buttons: a fresh game from any phase. */
    method StartGame()
      modifies this
      ensures Valid()
      ensures Snapshot() == Rules.StartGame(old(Snapshot()))
      ensures gameState == Rules.Playing && level == 1 && score == 0
      ensures timeLeft == Rules.StartSeconds && attempts == 0
      ensures feedback == Rules.NoFeedback && selectedLine == Rules.None
    {
      gameState := Rules.Playing;
      level := 1;
      score := 0;
      timeLeft := Rules.StartSeconds;
      attempts := 0;
      feedback := Rules.NoFeedback;
      selectedLine := Rules.None;
    }

    /** One run of the countdown effect. */
    method Tick()
      requires Valid()
      modifies this
      ensures Valid()
      ensures Snapshot() == Rules.Tick(old(Snapshot()))
      ensures old(gameState) == Rules.Playing && old(timeLeft) > 0 ==>
                timeLeft == old(timeLeft) - 1 && gameState == Rules.Playing
      ensures level == old(level) && score == old(score) && attempts == old(attempts)
    {
      if gameState == Rules.Playing && timeLeft > 0 {
        timeLeft := timeLeft - 1;
      } else if timeLeft == 0 && gameState == Rules.Playing {
        gameState := Rules.Complete;
        feedback := Rules.TimeUp;
      }
    }

    /**
     * A click on line `lineIndex` of the snippet. Returns the callback the click
     * schedules; the caller runs it later with AdvanceOrFinish or ClearFeedback.
     */
    method CheckBug(lineIndex: int) returns (scheduled: Rules.Callback)
      requires Valid()
      modifies this
      ensures Valid() && Rules.CallbackOk(scheduled)
      ensures (Snapshot(), scheduled) == Rules.CheckBug(old(Snapshot()), lineIndex)
      ensures score >= old(score) && attempts == old(attempts) + 1
    {
      var challenge := ChallengeAt(level);
      selectedLine := Rules.Some(lineIndex);
      var priorAttempts := attempts;
      attempts := priorAttempts + 1;
      if lineIndex == challenge.bugLine {
        var points := Points(challenge.difficulty);
        var bonus := FirstTryBonus(priorAttempts);
        score := score + points + bonus;
        feedback := Rules.Correct(level);
        scheduled := Rules.PendingAdvance(level, timeLeft);
      } else {
        feedback := Rules.WrongLine;
        scheduled := Rules.PendingClear;
      }
    }

    /**
     * The delayed callback of a correct guess, with the level and time left that the
     * click saw.
     */
    method AdvanceOrFinish(capturedLevel: int, capturedTime: int)
      requires Valid()
      requires 1 <= capturedLevel <= LevelCount && capturedTime >= 0
      modifies this
      ensures Valid()
      ensures Snapshot() == Rules.AdvanceOrFinish(old(Snapshot()), capturedLevel, capturedTime)
      ensures score == old(score)
    {
      if capturedLevel < LevelCount {
        level := capturedLevel + 1;
        attempts := 0;
        feedback := Rules.NoFeedback;
        selectedLine := Rules.None;
        timeLeft := capturedTime + Rules.LevelTimeBonus;
      } else {
        gameState := Rules.Complete;
        feedback := Rules.AllLevelsDone;
      }
    }

    /** The delayed callback of a wrong guess. */
    method ClearFeedback()
      requires Valid()
      modifies this
      ensures Valid()
      ensures Snapshot() == Rules.ClearFeedback(old(Snapshot()))
      ensures feedback == Rules.NoFeedback
    {
      feedback := Rules.NoFeedback;
    }
  }
}
