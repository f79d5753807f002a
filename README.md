# Verified model of the mindful-games widgets

This project is a Dafny model of the logic inside a small Next.js collection of calming mini-games. It covers five components:

- **The maze-chase game** (`components/PacmanGameStructured.tsx`), as five modules:
  - `PacmanMaze`: the maze.
  - `PacmanState`: the state and its invariant.
  - `PacmanPlayer`: player movement and key bindings.
  - `PacmanGhosts`: ghost targeting and stepping.
  - `PacmanCollisions`: pickups, captures and lost lives.
  - `PacmanTimers`: power and chase/scatter clocks.
  - `PacmanGame`: the tick, the deferred actions, the high score and the component object.
- **The pomodoro page** (`app/pomodoro/page.tsx`): module `PomodoroPage`. A minutes:seconds countdown over work, short-break and long-break modes.
- **The breathing page** (`app/breathing/page.tsx`): module `BreathingPage`. An inhale 4, hold 4, exhale 6, pause 2 count with a cycle counter.
- **The focus/break timer** (`components/PomodoroTimer.tsx`): module `PomodoroTimer`. A seconds countdown alternating between 1500 s of focus and 300 s of break, and its `m:ss` display.
- **The meditation player** (`app/meditation/page.tsx`): module `MeditationPage`. Wrap-around track navigation, auto-advance on track end, mute and the volume slider.

How the model is shaped:

- **Component state** that the source updates in place is a Dafny `class` with the same fields. Each class has a `View()` snapshot datatype. Each handler or interval callback is a `method` with a `modifies` clause, whose `ensures` relates the new snapshot to a step function of the old one.
- **Properties about many steps** are lemmas over those step functions. Examples: a 16-second breathing cycle, a 1501-tick work session, power lasting 67 ticks.
- **Loops of the source** are methods with loop invariants, proved against a specification function: `findPos`, `initializeDots`, the `validMoves` filter, the `bestMove` scan, `moveGhosts` over the ghost list, `ghosts.find`, and the `filter(...).length` count.
- **The game state** is a value (`GameState`), because every updater of the game returns a new object. A game-loop tick is the composition of its updaters in the source's order: targets, player, ghosts, collisions, timers.
- **Timeouts** the game sets become `Deferred` events kept in the component's `pending` list, which `Game.Fire` fires in any order:
  - the level reset 3000 ms after the last dot;
  - a ghost's mode restore 3000 ms after its capture;
  - the high-score flush after the last life.
- **Persisted high score:** the browser store becomes an `Option<int>` value that the component reads at mount and writes on a flush or a reset.
- **Distances:** `Math.sqrt` distances are replaced by squared integer distances. Every comparison comes out the same.

The model follows the code as written; in particular:

- A cell marked `'S'` is a dot, like `'.'`.
- The tick moves the player only along the buffered direction. There is no fallback to the old direction.
- Frightened ghosts do not flee. The best distance starts at `Infinity` and only a larger distance replaces it, so the first open step is always kept.
- `moveGhosts` overwrites every ghost's mode on the next tick, including `'eaten'`. So when collisions are checked no ghost is eaten, and every capture is worth exactly 200 (`PacmanGame.CaptureWorth200`).
- Clearing a level gives the +1 life only in the deferred reset.
- The game ends when lives reach 0 or fewer.
- The fruit cell is never consumed: it scores 100 × level on every tick the player stands on it.
- Ghost 0 spawns at (9, 9), which is a wall cell in the maze. The invariant allows exactly that cell besides the open ones.

## Model

| member | source | states |
|---|---|---|
| PacmanMaze.CellAt | components/PacmanGameStructured.tsx:475 | a cell has a character exactly when it is inside the grid, and that character is `'#'` exactly when the cell cannot be entered |
| PacmanMaze.StepBack | components/PacmanGameStructured.tsx:304-309 | after a unit step into an open cell, the reverse step is a legal move back |
| PacmanMaze.HomeCellOpen | components/PacmanGameStructured.tsx:496-501 | the home cell (10 + i, 9) of a captured ghost is open and can be left |
| PacmanMaze.HomeRowOpen | components/PacmanGameStructured.tsx:15 | the ghost-house cells (10..13, 9) are open |
| PacmanMaze.WallSpawn | components/PacmanGameStructured.tsx:87-93 | ghost 0's spawn (9, 9) is a wall cell, yet it has a legal move, and every cell it can step to can be left again |
| PacmanMaze.WallSpawnNeighbours | components/PacmanGameStructured.tsx:14-16 | around (9, 9) only the left and right cells are open |
| PacmanMaze.IndexOf | components/PacmanGameStructured.tsx:63 | `indexOf`: -1 exactly when the character is absent, else the index of its first occurrence |
| PacmanMaze.FirstFrom | components/PacmanGameStructured.tsx:61-67 | the found cell holds the marker, and no earlier row or column does; none means no row from `y` on holds it |
| PacmanMaze.FindPos | components/PacmanGameStructured.tsx:61-67 | the row scan returns the first marker cell in row-major order, or (1, 19) when there is none |
| PacmanMaze.SpawnRow | components/PacmanGameStructured.tsx:25 | the maze has 21 rows, and row 19 holds `'S'` at column 1 |
| PacmanMaze.NoSpawnAbove | components/PacmanGameStructured.tsx:6-24 | rows 0..18 hold no `'S'` |
| PacmanMaze.SpawnColumn | components/PacmanGameStructured.tsx:25 | `indexOf('S')` on row 19 is 1 |
| PacmanMaze.SkipRowsAboveSpawn | components/PacmanGameStructured.tsx:61-67 | searching for `'S'` from any row above 19 finds what the search from row 19 finds |
| PacmanMaze.SpawnCell | components/PacmanGameStructured.tsx:280 | `findPos('S')` is (1, 19), an open cell |
| PacmanMaze.CollectCells | components/PacmanGameStructured.tsx:69-85 | on any grid, the scan collects exactly the `'.'`/`'S'` cells as dots and the `'P'` cells as pellets |
| PacmanMaze.InitializeDots | components/PacmanGameStructured.tsx:69-85 | `initializeDots` yields the dot cells and the pellet cells of the maze |
| PacmanMaze.CollectiblesWellFormed | components/PacmanGameStructured.tsx:69-85 | dots and pellets are disjoint and contain no wall; every `'.'` is a dot; the spawn cell is a dot |
| PacmanState.InitialGhosts | components/PacmanGameStructured.tsx:87-118 | four chasing ghosts at (9..12, 9), each targeting its own scatter corner |
| PacmanState.InitialGhostsOk | components/PacmanGameStructured.tsx:87-118 | every spawn cell is allowed to a ghost and has a legal move |
| PacmanState.SpawnCellOk | components/PacmanGameStructured.tsx:87-118 | ghost i's spawn (9 + i, 9) is allowed and has a legal move |
| PacmanState.InitialStateValid | components/PacmanGameStructured.tsx:277-299 | the state the component mounts with satisfies the game invariant |
| PacmanPlayer.KeyCommand | components/PacmanGameStructured.tsx:629-659 | arrows and WASD in both cases map to exactly the four steps; the space bar is the restart key; other keys do nothing |
| PacmanPlayer.EveryDirectionBound | components/PacmanGameStructured.tsx:629-653 | each of the four steps is bound to some key |
| PacmanPlayer.MovePacman | components/PacmanGameStructured.tsx:537-556 | the player moves by `d` exactly when the target cell is open; `d` is buffered either way; nothing else changes; the player never enters a wall |
| PacmanPlayer.AdvancePacman | components/PacmanGameStructured.tsx:567-581 | the tick moves the player along a set, open buffered direction, otherwise leaves the state unchanged; the player never enters a wall |
| PacmanPlayer.MovePacmanValid | components/PacmanGameStructured.tsx:537-556 | a key press keeps the game invariant |
| PacmanPlayer.AdvancePacmanValid | components/PacmanGameStructured.tsx:567-581 | the player's tick keeps the game invariant |
| PacmanPlayer.KeyThenTick | components/PacmanGameStructured.tsx:537-581 | a key press toward two open cells followed by a tick moves the player two cells |
| PacmanGhosts.GhostTarget | components/PacmanGameStructured.tsx:316-352 | without chase targeting every ghost aims at its corner; with it, ghost 0 aims at the player, ghost 1 four steps ahead, ghost 2 at the reflection of ghost 0 through the cell two steps ahead, and ghost 3 at the player only when its squared distance exceeds 64 |
| PacmanGhosts.UpdateGhostTargets | components/PacmanGameStructured.tsx:312-355 | every ghost gets its new target, and nothing else in the state changes |
| PacmanGhosts.PrefixFacts | components/PacmanGameStructured.tsx:365-367 | the filter over the first n directions keeps exactly the open ones, in direction order |
| PacmanGhosts.PrefixTakesOpen | components/PacmanGameStructured.tsx:365-367 | keeping an open direction extends a correct scan by one direction |
| PacmanGhosts.PrefixSkipsBlocked | components/PacmanGameStructured.tsx:365-367 | skipping a blocked direction extends a correct scan by one direction |
| PacmanGhosts.LegalMoves | components/PacmanGameStructured.tsx:365-369 | `validMoves` is empty exactly when the ghost has no open neighbour |
| PacmanGhosts.LegalMovesFacts | components/PacmanGameStructured.tsx:365-367 | `validMoves` holds exactly the open steps, in Up, Down, Left, Right order |
| PacmanGhosts.ClosestIndexNearest | components/PacmanGameStructured.tsx:390-401 | the strict `<` scan keeps a nearest move, and every move before it is strictly farther |
| PacmanGhosts.IndexInLegalMoves | components/PacmanGameStructured.tsx:365-367 | every open step occurs in `validMoves` |
| PacmanGhosts.FirstLegalMove | components/PacmanGameStructured.tsx:372-388 | `validMoves[0]` is the first open step in direction order |
| PacmanGhosts.ClosestBeats | components/PacmanGameStructured.tsx:390-401 | the chosen move is at least as near to the target as any open step, and strictly nearer than any earlier one |
| PacmanGhosts.ClosestBeatsIn | components/PacmanGameStructured.tsx:390-401 | the same for any move list in direction order |
| PacmanGhosts.ClosestLegalMove | components/PacmanGameStructured.tsx:390-401 | outside power the chosen move is the nearest open step, ties going to the first in order |
| PacmanGhosts.GhostStepSpec | components/PacmanGameStructured.tsx:360-410 | a blocked ghost stays as it is; otherwise it takes one step, the first open one under power or the nearest otherwise, and its mode becomes frightened under power, else the global mode |
| PacmanGhosts.FrightenedStep | components/PacmanGameStructured.tsx:372-410 | under power a movable ghost takes the first open step and turns frightened: it does not flee |
| PacmanGhosts.ChasingStep | components/PacmanGameStructured.tsx:390-410 | without power a movable ghost takes the nearest open step and the global mode |
| PacmanGhosts.NearestStepUnique | components/PacmanGameStructured.tsx:390-401 | the nearest-step rule determines the move uniquely |
| PacmanGhosts.GhostsMoved | components/PacmanGameStructured.tsx:357-413 | every ghost takes its own step; the rest of the state is unchanged |
| PacmanGhosts.ValidMoves | components/PacmanGameStructured.tsx:361-367 | the filter loop yields the legal moves |
| PacmanGhosts.BestMove | components/PacmanGameStructured.tsx:372-402 | the `forEach` scan keeps `validMoves[0]` under power (no distance beats `Infinity` with `>`), else the strictly nearest move |
| PacmanGhosts.StepGhost | components/PacmanGameStructured.tsx:360-410 | one ghost's map callback computes its step |
| PacmanGhosts.MoveGhosts | components/PacmanGameStructured.tsx:357-413 | the map over the ghost list moves every ghost |
| PacmanGhosts.MovedGhostModes | components/PacmanGameStructured.tsx:409 | after `moveGhosts` every movable ghost is frightened under power and in the global mode otherwise, so no `'eaten'` mode survives |
| PacmanGhosts.GhostStepKeepsCell | components/PacmanGameStructured.tsx:365-410 | a ghost on an allowed cell stays on an allowed cell with a legal move |
| PacmanCollisions.EatDot | components/PacmanGameStructured.tsx:420-461 | the player's cell loses its dot and +10 is scored for it; eating the last dot wins, raises the level, adds 100 × the new level and schedules the level reset; nothing else changes |
| PacmanCollisions.EatPellet | components/PacmanGameStructured.tsx:466-472 | a pellet under the player is removed, scores 50 and starts 8000 ms of power; otherwise nothing changes |
| PacmanCollisions.EatFruit | components/PacmanGameStructured.tsx:475-478 | on the `'F'` cell the score rises by 100 × level and `fruitsEaten` by one; elsewhere nothing changes |
| PacmanCollisions.FirstGhostAt | components/PacmanGameStructured.tsx:481-483 | none exactly when no ghost is on the cell; otherwise the index of the first ghost on it |
| PacmanCollisions.EatenCount | components/PacmanGameStructured.tsx:488 | the count is 0 exactly when no ghost is eaten |
| PacmanCollisions.CaptureBonus | components/PacmanGameStructured.tsx:489 | the bonus is a positive multiple of 200, and 200 when none are eaten |
| PacmanCollisions.Captured | components/PacmanGameStructured.tsx:487-501 | the captured ghost goes to (10 + i, 9) in the eaten mode, the others are untouched, and the score rises by 200 · 2^eaten |
| PacmanCollisions.LifeLost | components/PacmanGameStructured.tsx:514-530 | a life is lost; at zero or fewer lives the game ends and a high-score flush is scheduled, else the player and ghosts respawn and power is cleared |
| PacmanCollisions.GhostCollision | components/PacmanGameStructured.tsx:481-531 | only the first ghost on the player's cell counts: a frightened ghost under power is captured and its restore scheduled; a ghost neither frightened nor eaten costs a life; otherwise nothing happens |
| PacmanCollisions.FindGhost | components/PacmanGameStructured.tsx:481-496 | the `find`/`indexOf` loop returns the first ghost on the cell |
| PacmanCollisions.FirstGhostAtUnique | components/PacmanGameStructured.tsx:481-483 | a ghost on the cell with none before it is the one found |
| PacmanCollisions.CountEaten | components/PacmanGameStructured.tsx:488 | the `filter(...).length` loop counts the eaten ghosts |
| PacmanCollisions.CheckGhostCollision | components/PacmanGameStructured.tsx:481-531 | the in-place ghost stage computes the ghost collision outcome |
| PacmanCollisions.CheckCollisions | components/PacmanGameStructured.tsx:415-535 | `checkCollisions` runs the dot, pellet, fruit and ghost stages in order and collects the timeouts they set |
| PacmanCollisions.GhostCollisionKeepsPickups | components/PacmanGameStructured.tsx:481-531 | the ghost stage leaves dots, pellets and level alone and never lowers the score |
| PacmanCollisions.CollideClearsCell | components/PacmanGameStructured.tsx:421-472 | after collisions the player's cell holds neither dot nor pellet, and no other cell changed |
| PacmanCollisions.CollideScoreGrows | components/PacmanGameStructured.tsx:415-535 | collisions never lower the score |
| PacmanCollisions.LevelEndScheduled | components/PacmanGameStructured.tsx:433-461 | the level reset is scheduled exactly when the player eats the last dot |
| PacmanCollisions.EatDotValid | components/PacmanGameStructured.tsx:421-461 | the dot stage keeps the game invariant |
| PacmanCollisions.PickupsValid | components/PacmanGameStructured.tsx:466-478 | the pellet and fruit stages keep the game invariant |
| PacmanCollisions.CapturedValid | components/PacmanGameStructured.tsx:496-501 | a capture keeps the game invariant |
| PacmanCollisions.LifeLostValid | components/PacmanGameStructured.tsx:514-530 | a lost life keeps the game invariant |
| PacmanCollisions.GhostCollisionValid | components/PacmanGameStructured.tsx:481-531 | the ghost stage keeps the game invariant |
| PacmanCollisions.CollideValid | components/PacmanGameStructured.tsx:415-535 | `checkCollisions` keeps the game invariant |
| PacmanTimers.PowerClock | components/PacmanGameStructured.tsx:593-598 | while power runs, its clock drops by 120 and power stays on exactly while time is left; otherwise nothing changes |
| PacmanTimers.PhaseClock | components/PacmanGameStructured.tsx:601-613 | frozen under power; otherwise the clock drops by 120, and at zero or below chase turns to a 5000 ms scatter and scatter to a 20000 ms chase |
| PacmanTimers.TimersStep | components/PacmanGameStructured.tsx:590-616 | the clocks never switch power on, and keep both countdowns positive |
| PacmanTimers.UpdateTimers | components/PacmanGameStructured.tsx:590-616 | the field-by-field timer updater computes the clock step |
| PacmanTimers.TimersFrame | components/PacmanGameStructured.tsx:590-616 | the clocks change only the four timer fields |
| PacmanTimers.TimersValid | components/PacmanGameStructured.tsx:590-616 | the clocks keep the game invariant |
| PacmanTimers.PowerLasts | components/PacmanGameStructured.tsx:593-598 | power started with t ms is on after n ticks exactly when t − 120n > 0, and then reads t − 120n |
| PacmanTimers.PelletPowerTicks | components/PacmanGameStructured.tsx:593-598 | a pellet's 8000 ms give exactly 67 ticks of power |
| PacmanTimers.PhaseFrozen | components/PacmanGameStructured.tsx:601 | while power lasts the chase/scatter phase and its clock do not move |
| PacmanGame.GameLoopTick | components/PacmanGameStructured.tsx:562-617 | the interval callback applies targets, player, ghosts, collisions and clocks in that order |
| PacmanGame.TargetsValid | components/PacmanGameStructured.tsx:312-355 | retargeting keeps the game invariant |
| PacmanGame.GhostsMovedValid | components/PacmanGameStructured.tsx:357-413 | moving the ghosts keeps the game invariant |
| PacmanGame.MovePhaseValid | components/PacmanGameStructured.tsx:564-584 | the three movement updaters keep the game invariant |
| PacmanGame.TickValid | components/PacmanGameStructured.tsx:562-617 | a whole tick keeps the invariant: no one stands in a wall, collectibles only shrink, counters stay in range |
| PacmanGame.TickScoreGrows | components/PacmanGameStructured.tsx:562-617 | a tick never lowers the score |
| PacmanGame.CaptureWorth200 | components/PacmanGameStructured.tsx:488-490 | within a tick every capture scores exactly 200: the 400/800/1600 steps are unreachable |
| PacmanGame.MovedNoneEaten | components/PacmanGameStructured.tsx:409 | after the movement updaters of a tick no ghost is eaten |
| PacmanGame.PrePhaseKeepsCells | components/PacmanGameStructured.tsx:564-581 | retargeting and the player's step leave every ghost on its cell |
| PacmanGame.PickupsKeepGhosts | components/PacmanGameStructured.tsx:420-478 | the dot, pellet and fruit stages leave the ghosts alone |
| PacmanGame.CaptureAtNoneEaten | components/PacmanGameStructured.tsx:488-490 | with no ghost eaten, any capture is worth 200 |
| PacmanGame.IntervalValid | components/PacmanGameStructured.tsx:559-562 | the interval runs only while running and neither over nor won, and keeps the invariant |
| PacmanGame.LevelReset | components/PacmanGameStructured.tsx:444-461 | the level reset restores all dots and pellets and sends everyone back to spawn: the player to `findPos('S')`, the ghosts to their initial cells and modes, both directions stopped; scatter for 7000 ms, power off with its clock at 0, and min(lives + 1, 5) lives; score, level, fruits and high score are kept |
| PacmanGame.LevelResetRespawns | components/PacmanGameStructured.tsx:446-454 | after the level reset the player stands on a dot, every ghost is on its spawn (9 + i, 9), and no ghost is on the player's cell |
| PacmanGame.RestoreMode | components/PacmanGameStructured.tsx:505-512 | the restore gives ghost i the global mode of the moment it fires and leaves all else |
| PacmanGame.UpdateHighScore | components/PacmanGameStructured.tsx:668-679 | the high score becomes max(score, high score), and is written to the store only when it grew |
| PacmanGame.ResetGame | components/PacmanGameStructured.tsx:686-717 | a fresh level-1 game that keeps max(score, high score) as its high score, written to the store only when it grew |
| PacmanGame.LevelResetValid | components/PacmanGameStructured.tsx:444-461 | the level reset keeps the game invariant |
| PacmanGame.FiredValid | components/PacmanGameStructured.tsx:444-520 | every deferred action keeps the game invariant |
| PacmanGame.ResetValid | components/PacmanGameStructured.tsx:686-717 | a reset yields a state satisfying the invariant |
| PacmanGame.StaleLevelReset | components/PacmanGameStructured.tsx:444-461 | a level reset still pending across a restart gives the new game a fourth life at level 1 |
| PacmanGame.FlushIdempotent | components/PacmanGameStructured.tsx:668-679 | flushing the high score twice changes nothing the second time |
| PacmanGame.Game.constructor | components/PacmanGameStructured.tsx:277-301 | the component mounts with the initial state and the stored high score, not running, with nothing pending |
| PacmanGame.Game.Start | components/PacmanGameStructured.tsx:792-813 | the start button starts a game that is neither over nor won |
| PacmanGame.Game.Step | components/PacmanGameStructured.tsx:559-621 | one interval period: a tick when running, not over and not won, its timeouts appended to the pending ones; the invariant is kept |
| PacmanGame.Game.Fire | components/PacmanGameStructured.tsx:444-520 | any pending timeout may fire; it is removed and its action applied; the invariant is kept |
| PacmanGame.Game.Reset | components/PacmanGameStructured.tsx:686-717 | `resetGame`: a fresh stopped game; pending timeouts are not cancelled |
| PacmanGame.Game.KeyDown | components/PacmanGameStructured.tsx:623-665 | keys are ignored before the first start; a step key moves the player; space restarts a game over or won and does nothing in a live game; unbound keys change nothing |
| PomodoroPage.Duration | app/pomodoro/page.tsx:16-20 | every mode lasts between 5 and 25 minutes, and 25 exactly for work |
| PomodoroPage.Toggle | app/pomodoro/page.tsx:63-65 | `toggleTimer` flips `isActive` and nothing else |
| PomodoroPage.Reset | app/pomodoro/page.tsx:67-71 | `resetTimer` stops and restores the current mode's full length with seconds 0; sessions unchanged |
| PomodoroPage.Switch | app/pomodoro/page.tsx:73-78 | `switchMode` stops and loads the new mode's full length with seconds 0; sessions unchanged |
| PomodoroPage.StartValid | app/pomodoro/page.tsx:9-13 | the page starts with 25:00 on a valid clock |
| PomodoroPage.CountdownValid | app/pomodoro/page.tsx:24-48 | a tick keeps seconds within 0..59 and the time left within the mode's length |
| PomodoroPage.CountdownDrops | app/pomodoro/page.tsx:41-46 | before expiry a tick takes exactly one second off the time left and changes nothing else |
| PomodoroPage.WorkExpires | app/pomodoro/page.tsx:29-34 | an expired work session stops, counts one more session and loads a full break, the long one exactly when the session count is a multiple of 4 |
| PomodoroPage.BreakExpires | app/pomodoro/page.tsx:35-39 | an expired break stops and loads 25:00 of work; the session count is unchanged |
| PomodoroPage.RunDown | app/pomodoro/page.tsx:24-48 | while time is left, k ticks of a running timer take off exactly k seconds |
| PomodoroPage.WorkSessionLength | app/pomodoro/page.tsx:24-48 | a full work session shows 0:00 after 1500 ticks and expires, completing one session, on tick 1501 |
| PomodoroPage.Pomodoro.constructor | app/pomodoro/page.tsx:9-13 | the page starts at 25:00 of work, stopped, with no sessions |
| PomodoroPage.Pomodoro.Tick | app/pomodoro/page.tsx:22-48 | one interval firing applies the countdown while active, and keeps the clock valid |
| PomodoroPage.Pomodoro.ToggleTimer | app/pomodoro/page.tsx:63-65 | the start/pause button |
| PomodoroPage.Pomodoro.ResetTimer | app/pomodoro/page.tsx:67-71 | the reset button |
| PomodoroPage.Pomodoro.SwitchMode | app/pomodoro/page.tsx:73-78 | the mode buttons |
| BreathingPage.Successor | app/breathing/page.tsx:145 | the phase after each phase differs from it |
| BreathingPage.Length | app/breathing/page.tsx:145 | each phase lasts between 2 and 6 counts |
| BreathingPage.Toggle | app/breathing/page.tsx:100 | the start/pause button flips `isActive` and nothing else |
| BreathingPage.StartValid | app/breathing/page.tsx:9-12 | the page starts inactive, with a valid count and no cycles |
| BreathingPage.CountsDown | app/breathing/page.tsx:37 | above the last count a tick only decrements the count |
| BreathingPage.PhaseAdvances | app/breathing/page.tsx:20-35 | at the last count a tick enters the next phase with its full length, and counts a cycle only on pause to inhale |
| BreathingPage.CyclesOnPauseOnly | app/breathing/page.tsx:31-34 | the cycle counter changes exactly on the pause-to-inhale step, and then by one |
| BreathingPage.CountValid | app/breathing/page.tsx:18-39 | every tick keeps the count within its phase's length, so within 1..6 |
| BreathingPage.RunWithinPhase | app/breathing/page.tsx:37 | k ticks within a phase take k off the count and change nothing else |
| BreathingPage.PhaseTicks | app/breathing/page.tsx:18-39 | a phase entered with count c lasts exactly c ticks |
| BreathingPage.FullCycle | app/breathing/page.tsx:18-39 | a full breath lasts 4 + 4 + 6 + 2 = 16 ticks and adds exactly one cycle, as the instructions say |
| BreathingPage.Breathing.constructor | app/breathing/page.tsx:9-12 | the page starts at inhale 4, inactive, with no cycles |
| BreathingPage.Breathing.Tick | app/breathing/page.tsx:17-39 | one interval firing, only while active, keeps the count valid |
| BreathingPage.Breathing.ToggleActive | app/breathing/page.tsx:100 | the start/pause button |
| BreathingPage.Breathing.Reset | app/breathing/page.tsx:113-118 | the reset button: inactive, inhale, count 4, no cycles |
| PomodoroTimer.Decimal | components/PomodoroTimer.tsx:15 | a number's decimal form is non-empty, all digits, and one digit exactly below 10 |
| PomodoroTimer.PadTwo | components/PomodoroTimer.tsx:15 | padding a one- or two-character string gives two characters |
| PomodoroTimer.DecimalRoundTrip | components/PomodoroTimer.tsx:15 | reading a number's decimal form back gives the number |
| PomodoroTimer.FormatRoundTrip | components/PomodoroTimer.tsx:12-16 | `format(sec)` is digits, a colon, then two digits s < 60, with minutes × 60 + s = sec |
| PomodoroTimer.Full | components/PomodoroTimer.tsx:9-10 | a session's full length is FOCUS or BREAK |
| PomodoroTimer.Switch | components/PomodoroTimer.tsx:141-144 | the delayed switch flips focus and loads BREAK after a focus session, FOCUS after a break; it consumes one scheduled switch |
| PomodoroTimer.Toggle | components/PomodoroTimer.tsx:253 | the start/pause button flips `running` and nothing else |
| PomodoroTimer.Reset | components/PomodoroTimer.tsx:262-265 | the reset button stops and loads FOCUS in focus, BREAK in a break; `isFocus` unchanged |
| PomodoroTimer.CountdownValid | components/PomodoroTimer.tsx:130-148 | a tick keeps seconds within 0..FOCUS, never raises them, strictly lowers them while running and positive, and keeps `isFocus` and `running` |
| PomodoroTimer.SwitchValid | components/PomodoroTimer.tsx:141-144 | the switch keeps seconds within 0..FOCUS |
| PomodoroTimer.RunDown | components/PomodoroTimer.tsx:131-132 | above the last second, k running ticks take off k seconds and schedule nothing |
| PomodoroTimer.SessionEnds | components/PomodoroTimer.tsx:130-148 | a running session with n seconds left reads 0 after exactly n ticks and has scheduled one switch, for the session it ended |
| PomodoroTimer.SwitchStartsNext | components/PomodoroTimer.tsx:141-144 | the switch scheduled by the current session starts the other kind at its full length |
| PomodoroTimer.FocusThenBreak | components/PomodoroTimer.tsx:117-148 | starting and running 1500 ticks ends the focus session, and its switch starts a running 300-second break |
| PomodoroTimer.Timer.constructor | components/PomodoroTimer.tsx:117-119 | the component mounts in focus with FOCUS seconds, stopped |
| PomodoroTimer.Timer.Tick | components/PomodoroTimer.tsx:127-148 | one interval firing, only while running, keeps seconds valid |
| PomodoroTimer.Timer.FireSwitch | components/PomodoroTimer.tsx:141-144 | a scheduled switch fires |
| PomodoroTimer.Timer.ToggleRunning | components/PomodoroTimer.tsx:253 | the start/pause button |
| PomodoroTimer.Timer.ResetSession | components/PomodoroTimer.tsx:262-265 | the reset button |
| MeditationPage.Previous | app/meditation/page.tsx:195 | previous is i − 1 modulo the playlist length, always a valid index |
| MeditationPage.Next | app/meditation/page.tsx:213 | next is i + 1 modulo the playlist length, always a valid index |
| MeditationPage.PreviousAfterNext | app/meditation/page.tsx:195-213 | previous undoes next |
| MeditationPage.NextAfterPrevious | app/meditation/page.tsx:195-213 | next undoes previous |
| MeditationPage.NextTimes | app/meditation/page.tsx:213 | k presses of next from i land on (i + k) mod the playlist length |
| MeditationPage.AfterEnded | app/meditation/page.tsx:76-78 | auto-advance moves to the next track, or stays on the last |
| MeditationPage.EndedTimes | app/meditation/page.tsx:72-79 | k track endings from i reach min(i + k, last track) |
| MeditationPage.EffectiveVolume | app/meditation/page.tsx:104 | the audio volume is 0 when muted, else the slider value, and never above it |
| MeditationPage.Select | app/meditation/page.tsx:120-128 | `selectTrack(i)` loads track i from the start, stopped, keeping volume and mute |
| MeditationPage.Ended | app/meditation/page.tsx:72-79 | a track ending stops playback, rewinds, and advances unless on the last track |
| MeditationPage.MuteToggled | app/meditation/page.tsx:130-132 | `toggleMute` flips the mute flag and nothing else |
| MeditationPage.PlayToggled | app/meditation/page.tsx:108-118 | `togglePlay` flips the playing flag and nothing else |
| MeditationPage.MuteTwice | app/meditation/page.tsx:130-132 | muting twice restores the state and the volume heard |
| MeditationPage.HandlersValid | app/meditation/page.tsx:72-132 | every handler keeps a valid track index and slider value |
| MeditationPage.MeditationPlayer.constructor | app/meditation/page.tsx:9-13 | the player mounts on track 0, stopped, at volume 0.7, unmuted |
| MeditationPage.MeditationPlayer.SelectTrack | app/meditation/page.tsx:120-128 | selecting a track |
| MeditationPage.MeditationPlayer.PreviousTrack | app/meditation/page.tsx:195 | the previous button selects the wrap-around previous track |
| MeditationPage.MeditationPlayer.NextTrack | app/meditation/page.tsx:213 | the next button selects the wrap-around next track |
| MeditationPage.MeditationPlayer.HandleEnded | app/meditation/page.tsx:72-79 | the audio element's `ended` event |
| MeditationPage.MeditationPlayer.ToggleMute | app/meditation/page.tsx:130-132 | the mute button |
| MeditationPage.MeditationPlayer.TogglePlay | app/meditation/page.tsx:108-118 | the play/pause button |
| MeditationPage.MeditationPlayer.SetVolume | app/meditation/page.tsx:237-244 | the slider sets the volume and nothing else |

## Left out

- Rendering: the canvas renderer, the JSX overlays, the animations and the 3D scenes. These are presentation only.
- Keyboard capture: `preventDefault` and the listener registration are not modelled. `Game.KeyDown` models only the decision made for each key.
- Browser store: `localStorage` is an `Option<int>` value. `parseInt` on a stored string is not modelled.
- Timing: `setInterval` and `setTimeout` are not modelled as real time.
  - Every interval callback is one atomic step.
  - Every timeout is a pending event that may fire at any later point, in any order.
  - No real-time ordering between intervals and timeouts is modelled.
- Updater re-runs: React's development double invocation of updaters is not modelled.
- In-place mutation: the ghost-capture write into `newState.ghosts[ghostIndex]` also mutates the previous state's array in the source. The model works on values, so that aliasing is not modelled.
- Floating point:
  - `Math.sqrt` is replaced by squared integer distances, which order every comparison the same way.
  - The pomodoro progress ring, the audio `currentTime`/`duration` and the meditation `progress` percentage updates are left out. `progress` is kept only as the value the handlers reset.
- The fruit-spawn hook is left out. It only logs, and its "244 dots" constant does not match the maze's 195 dot cells.
- Display-only fields: the tunnel flag and the ghost colours are never read by the logic.
- `PacmanMaze.Spawn`: the player's spawn is the constant (1, 19). `PacmanMaze.SpawnCell` proves it equal to `findPos('S')`, and `PacmanCollisions.CheckGhostCollision` calls the `FindPos` loop itself.
- Audio side effects of the focus/break timer are left out: the completion sound, the ambient sounds and the master volume store.
- Audio I/O of the meditation player is left out: `togglePlay`'s `play()`/`pause()` calls, `selectTrack`'s rewind of the audio element, and the early return when the audio element is missing. The model assumes the element exists.
- MeditationPage.MeditationPlayer.SelectTrack: requires an index within the playlist. Every caller in the page passes one: the list buttons, previous, next and auto-advance.
- MeditationPage.MeditationPlayer.SetVolume: requires a value in 0..1, the slider's range. `Number()` parsing of the slider's string is not modelled.
- PomodoroTimer.Timer.Tick: the source lets the interval fire again while a switch is pending. The model allows this, and each such tick schedules one more switch (`pending` is a list). Which interleavings occur in real time is not modelled.
- PomodoroPage.Pomodoro.Tick and the other widget handlers require the class's validity predicate. It holds from construction and every method keeps it.
