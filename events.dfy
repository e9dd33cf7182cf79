/**
 * The arena as the browser drives it: the session together with the delayed callbacks
 * that guesses have scheduled and that have not fired yet. An event is a press of the
 * start button, a run of the countdown, a click on a rendered line, or one pending
 * callback firing. The page offers the start button only outside play, and clickable
 * lines only during play. Firing order is left to the event sequence: nothing here says
 * when a callback fires relative to ticks or clicks, and a restart cancels none of them.
 */
module Events {
  import opened Catalog
  import opened Rules

  datatype World = World(state: State, pending: seq<Callback>)

  datatype Event =
    | StartPressed
    | TimerFired
    | LineClicked(index: int)
    | CallbackFired(k: int)

  predicate WorldOk(w: World) {
    && Consistent(w.state)
    && forall k :: 0 <= k < |w.pending| ==> CallbackOk(w.pending[k])
  }

  /** The page as first shown: the menu, nothing scheduled. */
  function Boot(): (w: World)
    ensures WorldOk(w) && w.state.gameState == Menu && w.pending == []
  {
    World(Initial(), [])
  }

  /** Lines are clickable only while playing, and only those the snippet has. */
  function Clickable(s: State, index: int): (b: bool)
    requires Consistent(s)
    ensures b ==> s.gameState == Playing && 0 <= index < |ChallengeAt(s.level).code|
    ensures s.gameState == Playing && 0 <= index < |ChallengeAt(s.level).code| ==> b
  {
    s.gameState == Playing && 0 <= index < |ChallengeAt(s.level).code|
  }

  /** While playing, every level offers both the bug line and a wrong line to click. */
  lemma WrongLineAlwaysOffered(s: State)
    requires Consistent(s) && s.gameState == Playing
    ensures Clickable(s, ChallengeAt(s.level).bugLine)
    ensures exists i :: Clickable(s, i) && i != ChallengeAt(s.level).bugLine
  {
    var c := ChallengeAt(s.level);
    assert |c.code| >= 4;
    var i := if c.bugLine == 0 then 1 else 0;
    assert Clickable(s, i) && i != c.bugLine;
  }

  /** `w.pending` without its `k`-th entry. */
  function Without(cs: seq<Callback>, k: int): (r: seq<Callback>)
    requires 0 <= k < |cs|
    ensures |r| == |cs| - 1
    ensures forall j :: 0 <= j < k ==> r[j] == cs[j]
    ensures forall j :: k <= j < |r| ==> r[j] == cs[j + 1]
  {
    cs[..k] + cs[k + 1..]
  }

  /** One event. */
  function Step(w: World, e: Event): (r: World)
    requires WorldOk(w)
    ensures WorldOk(r)
    ensures !e.StartPressed? ==> r.state.score >= w.state.score
    ensures e.StartPressed? && w.state.gameState == Playing ==> r == w
    ensures e.StartPressed? && w.state.gameState != Playing ==>
              r == World(StartGame(w.state), w.pending)
    ensures r.state.attempts != w.state.attempts ==>
              || (e.LineClicked? && r.state.attempts == w.state.attempts + 1)
              || (r.state.attempts == 0 && (e.StartPressed? || e.CallbackFired?))
    ensures r.state.level != w.state.level ==>
              (r.state.level == 1 && e.StartPressed?) || e.CallbackFired?
    ensures r.state.level != w.state.level ==> r.state.attempts == 0
    ensures r.state.timeLeft > w.state.timeLeft ==> e.StartPressed? || e.CallbackFired?
    ensures e.TimerFired? && w.state.gameState == Playing && w.state.timeLeft > 0 ==>
              r == World(w.state.(timeLeft := w.state.timeLeft - 1), w.pending)
  {
    match e
    case StartPressed =>
      if w.state.gameState != Playing then World(StartGame(w.state), w.pending) else w
    case TimerFired => World(Tick(w.state), w.pending)
    case LineClicked(i) =>
      if Clickable(w.state, i) then
        var (s, c) := CheckBug(w.state, i);
        World(s, w.pending + [c])
      else
        w
    case CallbackFired(k) =>
      if 0 <= k < |w.pending| then
        World(Fire(w.state, w.pending[k]), Without(w.pending, k))
      else
        w
  }

  /** A sequence of events, in order. */
  function Run(w: World, events: seq<Event>): (r: World)
    requires WorldOk(w)
    ensures WorldOk(r)
    decreases |events|
  {
    if events == [] then w else Run(Step(w, events[0]), events[1..])
  }

  function Ticks(n: nat): (ts: seq<Event>)
    ensures |ts| == n
    ensures forall j :: 0 <= j < n ==> ts[j] == TimerFired
  {
    if n == 0 then [] else [TimerFired] + Ticks(n - 1)
  }

  /** Whatever happens, the current challenge exists: the level stays within the catalog. */
  lemma LevelStaysInCatalog(events: seq<Event>)
    ensures 1 <= Run(Boot(), events).state.level <= LevelCount
    ensures Run(Boot(), events).state.timeLeft >= 0
  {
  }

  /** Without a restart the score never goes down, whatever the order of events. */
  lemma {:induction false} ScoreNeverDecreases(w: World, events: seq<Event>)
    requires WorldOk(w)
    requires forall j :: 0 <= j < |events| ==> !events[j].StartPressed?
    ensures Run(w, events).state.score >= w.state.score
    decreases |events|
  {
    if events != [] {
      ScoreNeverDecreases(Step(w, events[0]), events[1..]);
    }
  }

  /** While playing, `n` runs of the countdown take exactly `n` seconds and touch nothing else. */
  lemma {:induction false} CountdownTakesOneSecondPerTick(w: World, n: nat)
    requires WorldOk(w) && w.state.gameState == Playing && w.state.timeLeft >= n
    ensures Run(w, Ticks(n)) == World(w.state.(timeLeft := w.state.timeLeft - n), w.pending)
    decreases n
  {
    if n > 0 {
      var w' := Step(w, TimerFired);
      assert Ticks(n)[1..] == Ticks(n - 1);
      CountdownTakesOneSecondPerTick(w', n - 1);
    }
  }

  /**
   * With `t` seconds left and only the countdown running, the game ends on the run after
   * the `t`-th: the phase is complete with the time-up message; level, score, attempts,
   * the selection and the pending callbacks are as they were.
   */
  lemma {:induction false} TimeRunsOut(w: World)
    requires WorldOk(w) && w.state.gameState == Playing
    ensures Run(w, Ticks(w.state.timeLeft + 1)) ==
              World(w.state.(timeLeft := 0, gameState := Complete, feedback := TimeUp), w.pending)
    decreases w.state.timeLeft
  {
    var w' := Step(w, TimerFired);
    assert Ticks(w.state.timeLeft + 1)[1..] == Ticks(w.state.timeLeft);
    if w.state.timeLeft > 0 {
      TimeRunsOut(w');
    } else {
      assert Ticks(0) == [];
    }
  }

  /** From the start button, sixty seconds of countdown end the game on the first level. */
  lemma SixtySecondsWithoutGuessing()
    ensures Run(Boot(), [StartPressed] + Ticks(StartSeconds + 1)).state ==
              StartGame(Initial()).(timeLeft := 0, gameState := Complete, feedback := TimeUp)
  {
    var w := Step(Boot(), StartPressed);
    assert ([StartPressed] + Ticks(StartSeconds + 1))[1..] == Ticks(StartSeconds + 1);
    TimeRunsOut(w);
  }

  /**
   * Start, find the bug on level 1 at the first try, and let the advance fire:
   * 150 points, level 2, and 75 seconds on the clock.
   */
  lemma FirstLevelAtFirstTry()
    ensures
      var r := Run(Boot(), [StartPressed, LineClicked(1), CallbackFired(0)]).state;
      r.score == 150 && r.level == 2 && r.timeLeft == 75 && r.attempts == 0 &&
      r.gameState == Playing && r.feedback == NoFeedback && r.selectedLine == None
  {
  }

  /** A wrong line costs nothing but an attempt; its message is cleared later. */
  lemma WrongLineThenCleared()
    ensures
      var w1 := Run(Boot(), [StartPressed, LineClicked(0)]);
      var w2 := Run(w1, [CallbackFired(0)]);
      && w1.state.attempts == 1 && w1.state.score == 0 && w1.state.feedback == WrongLine
      && w2.state == w1.state.(feedback := NoFeedback)
      && w2.state.gameState == Playing
  {
  }

  /**
   * The advance sets the clock from the time the click saw, so seconds that pass
   * between the click and the advance are given back: two ticks in between still
   * leave 75 seconds, not 73.
   */
  lemma SecondsBeforeAdvanceAreGivenBack()
    ensures Run(Boot(), [StartPressed, LineClicked(1), TimerFired, TimerFired]).state.timeLeft == 58
    ensures Run(Boot(), [StartPressed, LineClicked(1), TimerFired, TimerFired,
                         CallbackFired(0)]).state.timeLeft == 75
  {
  }

  /** Clicking the bug twice before the advance fires scores twice. */
  lemma SecondClickScoresAgain()
    ensures Run(Boot(), [StartPressed, LineClicked(1), LineClicked(1)]).state.score == 250
  {
  }

  /** Handling two event sequences one after the other is handling their concatenation. */
  lemma {:induction false} RunConcat(w: World, first: seq<Event>, second: seq<Event>)
    requires WorldOk(w)
    ensures Run(w, first + second) == Run(Run(w, first), second)
    decreases |first|
  {
    if first == [] {
      assert first + second == second;
    } else {
      assert (first + second)[0] == first[0];
      assert (first + second)[1..] == first[1..] + second;
      RunConcat(Step(w, first[0]), first[1..], second);
    }
  }

  /**
   * With one second left, a correct click is followed by the time-up before its callback
   * fires, and the player restarts from the complete screen: the new game is fresh, and
   * the callback captured at the last second is still pending.
   */
  lemma {:induction false} LastSecondGuessThenRestart(w: World)
    requires WorldOk(w) && w.state.gameState == Playing && w.state.timeLeft == 1
    ensures
      var events := [LineClicked(ChallengeAt(w.state.level).bugLine), TimerFired, TimerFired,
                     StartPressed];
      Run(w, events) == World(StartGame(w.state), w.pending + [PendingAdvance(w.state.level, 1)])
  {
    var b := ChallengeAt(w.state.level).bugLine;
    var w1 := Step(w, LineClicked(b));
    assert w1.pending == w.pending + [PendingAdvance(w.state.level, 1)];
    var w2 := Step(w1, TimerFired);
    var w3 := Step(w2, TimerFired);
    assert w3.state.gameState == Complete;
    var w4 := Step(w3, StartPressed);
    assert w4 == World(StartGame(w.state), w1.pending);
    var events := [LineClicked(b), TimerFired, TimerFired, StartPressed];
    assert events[1..] == [TimerFired, TimerFired, StartPressed];
    assert events[2..] == [TimerFired, StartPressed];
    assert events[3..] == [StartPressed];
    assert events[3..][1..] == [];
    assert Run(w3, events[3..]) == w4;
    assert Run(w2, events[2..]) == Run(w3, events[3..]);
    assert Run(w1, events[1..]) == Run(w2, events[2..]);
    assert Run(w, events) == Run(w1, events[1..]);
  }

  /**
   * A restart does not cancel an advance scheduled in the previous game. With one second
   * left, a correct click is followed by the time-up before its advance fires; the player
   * restarts, and the stale advance then moves the new game to the next level with the
   * clock at the captured second plus 15.
   */
  lemma {:induction false} AdvanceSurvivesRestart(w: World)
    requires WorldOk(w) && w.state.gameState == Playing
    requires w.state.timeLeft == 1 && w.state.level < LevelCount
    ensures
      var events := [LineClicked(ChallengeAt(w.state.level).bugLine), TimerFired, TimerFired,
                     StartPressed, CallbackFired(|w.pending|)];
      var r := Run(w, events).state;
      r.gameState == Playing && r.level == w.state.level + 1 && r.score == 0 &&
      r.timeLeft == 1 + LevelTimeBonus && r.attempts == 0
  {
    FireAfterRestart(w);
  }

  /**
   * An advance that fires late resets the attempts without changing the level: two
   * correct clicks on level 1, the first advance, a wrong click on level 2, and then the
   * second advance, which sets the level to 2 again and the attempts to 0.
   */
  lemma StaleAdvanceResetsAttemptsMidLevel()
    ensures
      var before := Run(Boot(), [StartPressed, LineClicked(1), LineClicked(1), CallbackFired(0),
                                 LineClicked(0)]).state;
      var after := Run(Boot(), [StartPressed, LineClicked(1), LineClicked(1), CallbackFired(0),
                                LineClicked(0), CallbackFired(0)]).state;
      before.level == 2 && before.attempts == 1 && after.level == 2 && after.attempts == 0
  {
  }

  /**
   * A finish still pending when the game ends also survives a restart. With one second
   * left on the last level, a correct click is followed by the time-up before its finish
   * fires; the player restarts, and the stale finish ends the new game at once with the
   * congratulation, on level 1 with no points.
   */
  lemma {:induction false} StaleFinishEndsNewGame(w: World)
    requires WorldOk(w) && w.state.gameState == Playing
    requires w.state.timeLeft == 1 && w.state.level == LevelCount
    ensures
      var events := [LineClicked(ChallengeAt(w.state.level).bugLine), TimerFired, TimerFired,
                     StartPressed, CallbackFired(|w.pending|)];
      var r := Run(w, events).state;
      r.gameState == Complete && r.feedback == AllLevelsDone && r.level == 1 &&
      r.score == 0 && r.timeLeft == StartSeconds
  {
    FireAfterRestart(w);
  }

  /**
   * The shared step of the two lemmas above: after the restart, the callback captured at
   * the last second fires on the fresh game.
   */
  lemma {:induction false} FireAfterRestart(w: World)
    requires WorldOk(w) && w.state.gameState == Playing && w.state.timeLeft == 1
    ensures
      var events := [LineClicked(ChallengeAt(w.state.level).bugLine), TimerFired, TimerFired,
                     StartPressed, CallbackFired(|w.pending|)];
      Run(w, events).state == AdvanceOrFinish(StartGame(w.state), w.state.level, 1)
  {
    var b := ChallengeAt(w.state.level).bugLine;
    var restart := [LineClicked(b), TimerFired, TimerFired, StartPressed];
    var fire := [CallbackFired(|w.pending|)];
    LastSecondGuessThenRestart(w);
    RunConcat(w, restart, fire);
    assert restart + fire == [LineClicked(b), TimerFired, TimerFired, StartPressed,
                              CallbackFired(|w.pending|)];
    var w4 := World(StartGame(w.state), w.pending + [PendingAdvance(w.state.level, 1)]);
    assert fire[1..] == [];
    assert Run(w4, fire) == Step(w4, CallbackFired(|w.pending|));
  }

  /**
   * A late advance sets the attempt counter back to 0 in the middle of a level, so the
   * next correct guess there earns the first-try bonus again, even after a wrong guess:
   * on level 2 (Easy) the score goes from 250 to 400.
   */
  lemma StaleAdvanceGrantsBonusAgain()
    ensures
      var before := Run(Boot(), [StartPressed, LineClicked(1), LineClicked(1), CallbackFired(0),
                                 LineClicked(0), CallbackFired(0)]).state;
      var after := Run(Boot(), [StartPressed, LineClicked(1), LineClicked(1), CallbackFired(0),
                                LineClicked(0), CallbackFired(0), LineClicked(3)]).state;
      before.level == 2 && before.score == 250 && before.attempts == 0 &&
      after.level == 2 && after.score == 400
  {
    var six := [StartPressed, LineClicked(1), LineClicked(1), CallbackFired(0), LineClicked(0),
                CallbackFired(0)];
    var last := [LineClicked(3)];
    RunConcat(Boot(), six, last);
    assert six + last == [StartPressed, LineClicked(1), LineClicked(1), CallbackFired(0),
                          LineClicked(0), CallbackFired(0), LineClicked(3)];
    var wb := Run(Boot(), six);
    assert last[1..] == [];
    assert Run(wb, last) == Step(wb, LineClicked(3));
  }

  /**
   * A clear scheduled by a wrong guess also erases a later success message: a wrong click,
   * then the bug within 1.5 seconds, then the clear. The level is still 1, the advance is
   * still pending, and no message is shown.
   */
  lemma LateClearErasesSuccess()
    ensures
      var w := Run(Boot(), [StartPressed, LineClicked(0), LineClicked(1), CallbackFired(0)]);
      w.state.level == 1 && w.state.score == 100 && w.state.feedback == NoFeedback &&
      w.pending == [PendingAdvance(1, StartSeconds)]
  {
  }
}
