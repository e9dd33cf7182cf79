# Bug Hunter Arena: the game session in Dafny

Bug Hunter Arena is a timed quiz. The player sees a short code snippet with one
defective line and clicks the line they think is wrong, before a shared 60-second
countdown runs out. There are eight levels of rising difficulty. This project models
the game session of the `BugHunterArena` component and proves its rules.

The session has seven fields: `level`, `score`, `timeLeft`, `gameState` (menu,
playing, complete), `selectedLine`, `attempts` and `feedback`. Five things change them:

- the start (or replay) button resets the session;
- the countdown effect takes one second off the clock, or ends the game at zero;
- a click on a line scores the guess against the current challenge;
- two seconds after a correct guess, a callback advances to the next level (+15 s) or
  ends the game after level 8;
- 1.5 seconds after a wrong guess, a callback clears the message.

The project has four modules:

- `Catalog` (catalog.dfy): the eight challenges, the points per difficulty and the
  first-try bonus.
- `Rules` (rules.dfy): the session as a value, with one pure function per transition.
  This is the specification.
- `Arena` (session.dfy): class `Session`, whose fields the handlers overwrite one at a
  time, as the component's setters do. Each method is proved to produce the state its
  `Rules` function gives, and to keep the session consistent.
- `Events` (events.dfy): the session together with the callbacks that are scheduled but
  have not fired. A step function handles one event (start, countdown, click, or a
  pending callback firing) and `Run` handles a sequence of them. Lemmas over event
  sequences prove the multi-step properties and replay the game's scenarios.

How closures are modelled. The advance callback uses the `level` and `timeLeft` that
were current when the line was clicked, not those current when it fires. So a click
returns the value `PendingAdvance(level, timeLeft)`, and `AdvanceOrFinish` takes those
captured values as parameters. The click handler reads `attempts` and `score` as they
were at the last render. The page re-renders between two clicks, so the model uses the
current values. The countdown timeout is cancelled whenever `timeLeft` or `gameState`
changes, so a tick always works on the current value.

Nothing cancels a pending callback, and a restart does not cancel one either. The
model keeps this behaviour, and the lemmas show what follows from it:

- seconds that pass between a correct click and its advance are given back;
- a second click on the bug before the advance fires scores again;
- a stale advance resets the attempts to 0 without a level change, so the next correct
  guess on that level earns the first-try bonus again;
- a clear scheduled by a wrong guess also erases the success message of a correct guess
  made within the 1.5 seconds, while that guess's advance is still pending;
- an advance from a level below 8 that is still pending when the game ends (the time
  ran out within the two seconds) fires in the next game after a restart. The next game
  then moves to the next level with the captured time plus 15 seconds;
- a finish from level 8 that is still pending in the same way ends the restarted game
  at once with the congratulation, on level 1 with score 0.

## Model

| member | source | states |
|---|---|---|
| Catalog.Challenges | main.c:13-141 | there are 8 challenges; entry k has level k+1, its snippet has at least 4 lines, and its bug line is an index into its code |
| Catalog.Level1 | main.c:14-28 | level 1: bug on line 1 of 4, Easy |
| Catalog.Level2 | main.c:29-44 | level 2: bug on line 3 of 5, Easy |
| Catalog.Level3 | main.c:45-60 | level 3: bug on line 1 of 5, Medium |
| Catalog.Level4 | main.c:61-76 | level 4: bug on line 3 of 5, Medium |
| Catalog.Level5 | main.c:77-93 | level 5: bug on line 1 of 6, Medium |
| Catalog.Level6 | main.c:94-108 | level 6: bug on line 0 of 4, Hard |
| Catalog.Level7 | main.c:109-124 | level 7: bug on line 2 of 5, Hard |
| Catalog.Level8 | main.c:125-140 | level 8: bug on line 1 of 5, Hard |
| Catalog.ChallengeAt | main.c:143 | for every level in 1..8, the current challenge is defined, carries that level number, has at least 4 lines, and its bug line exists |
| Catalog.Points | main.c:171-172 | Easy, Medium and Hard earn 100, 200 and 300, in both directions, so no two tiers earn the same |
| Catalog.FirstTryBonus | main.c:173 | the bonus is 50 exactly when the attempt counter is 0, otherwise 0 |
| Rules.Initial | main.c:5-11 | the session starts in the menu on level 1 with score 0, 60 seconds, no attempts, no selected line and no feedback, and is consistent |
| Rules.StartGame | main.c:156-164 | from any state: playing, level 1, score 0, 60 s, 0 attempts, no feedback, no selected line |
| Rules.Tick | main.c:145-154 | while playing with time left, the clock drops by exactly 1 and nothing else changes; playing at 0 becomes complete with the time-up message; otherwise nothing changes; level, score and attempts never change and consistency is kept |
| Rules.Reward | main.c:170-174 | a correct guess earns the difficulty's points plus 50 when the attempt counter is 0, so at least 100 |
| Rules.CheckBug | main.c:166-193 | every guess selects the line and adds exactly 1 attempt. Level, clock and phase do not change. The score rises exactly when the guess is right, by the reward, and the guess then schedules an advance carrying the click-time level and time. A wrong guess keeps the score and schedules a clear |
| Rules.AdvanceOrFinish | main.c:177-188 | below level 8: the captured level plus 1, 0 attempts, no feedback, no selection, captured time plus 15. On level 8: complete with the congratulation, and the level and every other field unchanged. The score never changes and consistency is kept |
| Rules.ClearFeedback | main.c:191 | the feedback is cleared and every other field is unchanged |
| Rules.Fire | main.c:177-191 | running a scheduled callback keeps the score and consistency; a clear callback changes only the feedback |
| Arena.Session.constructor | main.c:5-11 | the fields hold the initial session |
| Arena.Session.CurrentChallenge | main.c:143 | the challenge on screen has the session's level and a valid bug line |
| Arena.Session.StartGame | main.c:156-164 | the fields become the fresh playing session of Rules.StartGame |
| Arena.Session.Tick | main.c:145-154 | the fields become Rules.Tick of the old ones: one second less while playing, the level, score and attempts unchanged |
| Arena.Session.CheckBug | main.c:166-193 | the fields and the returned callback are those of Rules.CheckBug; the score does not drop and the attempts grow by 1 |
| Arena.Session.AdvanceOrFinish | main.c:177-188 | the fields become Rules.AdvanceOrFinish with the captured level and time; the session stays consistent |
| Arena.Session.ClearFeedback | main.c:191 | only the feedback changes, to none |
| Events.Boot | main.c:5-11 | the page opens on the menu with nothing scheduled |
| Events.Clickable | main.c:294-297 | a line can be clicked exactly when the game is playing and the index is a line of the current snippet |
| Events.Step | main.c:145-193 | the start button works only outside play (menu or complete) and restarts the session with the pending callbacks kept; while playing it does nothing. One event keeps the level in the catalog and every pending advance well formed. Only a restart can lower the score. Attempts change only by +1 on a click, or to 0 on a restart or a fired callback. Level and clock move up only on a restart or a fired callback. Whenever the level changes, the attempts are 0. A tick while playing with time left takes exactly one second |
| Events.Run | main.c:143-193 | any sequence of events keeps the session consistent, so the current challenge is always defined |
| Events.LevelStaysInCatalog | main.c:143 | from the opening page, after any events, the level is within 1..8 and the clock is not negative |
| Events.ScoreNeverDecreases | main.c:166-188 | with no restart among the events, the final score is at least the initial one |
| Events.CountdownTakesOneSecondPerTick | main.c:145-148 | while playing with at least n seconds left, n countdown runs take off exactly n seconds and change nothing else |
| Events.TimeRunsOut | main.c:145-152 | while playing with t seconds left, t+1 countdown runs end the game with the time-up message; level, score, attempts and pending callbacks stay as they were |
| Events.SixtySecondsWithoutGuessing | main.c:145-164 | after a start, 61 countdown runs with no guess leave the game complete on level 1 with score 0 |
| Events.FirstLevelAtFirstTry | main.c:166-188 | start, a correct first click on level 1, then the advance: score 150, level 2, 75 seconds, no attempts, still playing |
| Events.WrongLineThenCleared | main.c:189-191 | a wrong click costs one attempt and no points; its clear callback removes only the message and play continues |
| Events.SecondsBeforeAdvanceAreGivenBack | main.c:177-183 | two ticks between a correct click and the advance lower the clock to 58, and the advance then sets it to 75, not 73 |
| Events.SecondClickScoresAgain | main.c:166-176 | two clicks on the bug line before the advance fires score 150 + 100 = 250 |
| Events.RunConcat | main.c:143-193 | handling two event sequences one after the other gives the same page as handling their concatenation |
| Events.LastSecondGuessThenRestart | main.c:145-188 | with one second left, a correct click, the time-up and a restart give a fresh game with the click's advance, carrying the level and 1 s, still pending |
| Events.FireAfterRestart | main.c:156-188 | after that restart, the pending callback fires on the fresh game: the new state is the advance or finish, with the captured level and 1 s, applied to the fresh session |
| Events.AdvanceSurvivesRestart | main.c:156-188 | on any level below 8 with one second left: a correct click, the time-up, and a restart from the complete screen; the stale advance then moves the new game to the next level with 16 seconds |
| Events.StaleAdvanceGrantsBonusAgain | main.c:170-183 | after a stale advance reset the counter on level 2, following a wrong guess there, the next correct guess earns 100 + 50, taking the score from 250 to 400 |
| Events.LateClearErasesSuccess | main.c:166-191 | a wrong click, a correct click and then the wrong click's clear leave level 1 with 100 points, no message, and the advance still pending |
| Events.StaleFinishEndsNewGame | main.c:156-188 | on level 8 with one second left: a correct click, the time-up, and a restart from the complete screen; the stale finish then ends the new game at once, complete with the congratulation, on level 1 with score 0 and 60 seconds |
| Events.WrongLineAlwaysOffered | main.c:294-297 | while playing, the bug line is clickable and so is some other line of the snippet, so every level can be answered right or wrong |
| Events.StaleAdvanceResetsAttemptsMidLevel | main.c:177-183 | two correct clicks on level 1, the first advance, and a wrong click on level 2 give 1 attempt; the second advance then resets the attempts to 0 while the level stays 2 |

## Left out

- Rendering, styling, icons and layout (main.c:195-342): presentation only. The
  "Levels Completed" line of the final screen is part of this and is not modelled.
- The text fields `explanation` and `fix` of each challenge, and the wording of the
  messages, are not modelled. A message is a tag; the success message carries the level
  whose explanation it shows. The titles, languages and code lines are kept.
- The difficulty is a three-valued enum. In the source it is a string, and any value
  other than "Easy" or "Medium" earns 300. Every catalog entry uses one of the three
  names.
- Real time: the 1000, 2000 and 1500 ms delays and React's effect scheduling. Each timer
  run and each delayed callback is an explicit event, in whatever order a sequence
  gives. The expiry at zero is the countdown effect's next run, which the model counts
  as one more countdown event.
- Events.Step: a click that is not on a rendered line, or that comes while not
  playing, is ignored, because the page renders clickable lines only while playing
  (main.c:237, 294-297). A start press while playing is ignored too, because the page
  shows the start and replay buttons only on the menu and complete screens
  (main.c:206, 228-233, 326, 332-337).
