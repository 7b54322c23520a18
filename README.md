# Browser mini-games: verified model of the game rules

This project models the rules of the four browser mini-games of the
repository's `frontend/src/components/games/` folder: Snake, Traffic Racer,
Flappy Bird and Tic-Tac-Toe. Each real-time game is a class whose fields are
the component's state and refs (score, high score, the started / over /
paused flags, difficulty, the player, the obstacles, the spawn timer), and
whose methods are the component's handlers and one animation frame of its
game loop. Tic-Tac-Toe is a class over a nine-square array plus pure
functions for the winner check and the status line.

- `Arcade.dfy`: the difficulty setting, the high-score rule applied when a
  run ends, and the strict overlap test every collision check uses.
- `Snake.dfy`: the grid snake: turn requests and the no-reversal guard, the
  tick (move, wall and self collision, growth), food placement by retrying
  random cells, start, pause, end.
- `TrafficRacer.dfy`: lane steering, timed spawns into three lanes, the
  downward advance with strict bounding-box collision, pruning.
- `FlappyBird.dfy`: gravity, jumps, pipe spawns with a bounded gap, gap
  collision, scoring each pipe once, pruning, ground and ceiling.
- `TicTacToe.dfy`: the eight-line winner check, draw detection, clicks,
  reset, and the alternation of marks.

Modelling choices:

- Flappy Bird's positions, velocities, gravity and pipe speed are exact
  `real` numbers (its constants include 0.4 and 1.5); floating-point
  rounding is not modelled. Traffic Racer and Snake are all integers.
- Random numbers are parameters: Snake receives the stream of cells its
  placement loop draws (`Draw`), Traffic Racer the lane index (< 3), Flappy
  Bird the gap draw (in `[0, 500 - gap - 80)`). The clock (`Date.now`, the
  animation-frame timestamp) is a parameter `now` / `timestamp`. Held arrow
  keys are two booleans of Traffic Racer's frame.
- The stored high score is a constructor parameter (0 when nothing is
  stored). The effect that stores a beaten high score runs once the run is
  over and the score no longer changes, so it is folded into `EndGame`.
- The game-loop effect of Snake (place food still at the (0, 0) "not
  placed" mark) and of Flappy Bird (take the difficulty's gravity) is the
  method `ArmLoop`. Flappy Bird's `StartGame`, `TogglePause` and
  `SetDifficulty` call it themselves, as the effect re-runs on each of those
  changes. Snake's host calls it after a start and on every resume: a ghost
  flag set by `ArmLoop` and cleared by `StartGame` is a precondition of
  `Tick`, so no frame runs while the food is still at the mark.
- An animation frame is one call of `Tick` / `Frame`, which requires a
  running game (started, not over, not paused): the loop is only scheduled
  then.

Behaviour the model follows as the code has it:

- Spawns fire only when strictly more than the interval has passed.
- The snake's new head is compared with every segment of the body before
  the move except the head, the tail cell included: turning onto the tail is
  fatal (`Snake.ChasingTailIsFatal`).
- On a fatal tick the buffered direction has already become the current one
  and the timer restarted, but the snake is left as it was.
- Flappy Bird's pause toggles in every state, and its difficulty can change
  during a run: the gravity, pipe speed, spawn rate and gap change at once,
  the jump strength only at the next start. Snake and Traffic Racer disable
  the difficulty buttons while a run is in progress.
- In Traffic Racer and Flappy Bird a collision stops the frame: the later
  obstacles are not moved, nothing is pruned, and for Flappy Bird the ground
  check is skipped.
- Traffic Racer's Space key starts only a game never started; restarting
  after a crash is done by the button, which is `StartGame`.

## Model

| member | source | states |
|---|---|---|
| Arcade.RecordHighScore | frontend/src/components/games/FlappyBird.jsx:147-152 | the new high score is the score when it beats the old one and the old one otherwise, so it is at least both |
| Arcade.AfterRunsIsBest | frontend/src/components/games/TrafficRacer.jsx:193-198 | after any series of runs the high score is at least every run's score and the initial one, and equals one of them |
| Arcade.OverlapsIffPositiveCommon | frontend/src/components/games/TrafficRacer.jsx:166-171 | the strict overlap test on one axis holds exactly when the two extents share a part of positive length |
| Arcade.TouchingDoesNotOverlap | frontend/src/components/games/TrafficRacer.jsx:166-171 | extents that only share an edge do not overlap |
| Arcade.Filter | frontend/src/components/games/TrafficRacer.jsx:177-180 | the kept elements are exactly those of the input that pass the test, and there are no more of them than in the input |
| Arcade.FilterKeepsOrder | frontend/src/components/games/FlappyBird.jsx:117-118 | filtering distributes over concatenation, so the kept cars and pipes stay in their order |
| Snake.Move | frontend/src/components/games/Snake.jsx:168-184 | up and left decrease a coordinate, down and right increase one, each exactly when that is the direction, and the new cell is exactly one grid size away |
| Snake.MoveIsOneStep | frontend/src/components/games/Snake.jsx:168-184 | a move reaches a neighbouring cell, and the opposite move undoes it |
| Snake.BackOnlyByOpposite | frontend/src/components/games/Snake.jsx:168-184 | only the opposite direction brings the head back to the cell it came from |
| Snake.HarderIsFaster | frontend/src/components/games/Snake.jsx:78-92 | harder settings tick more often: the interval shrinks from easy to medium to hard and stays positive |
| Snake.TickInterval | frontend/src/components/games/Snake.jsx:78-92 | the milliseconds between moves: 150 on easy, 100 on medium, 70 on hard (no contract; `Snake.HarderIsFaster` orders them) |
| Snake.Steer | frontend/src/components/games/Snake.jsx:49-62 | a requested turn becomes the buffered direction unless it reverses the current direction, in which case the buffered one is kept |
| Snake.SteerNeverReverses | frontend/src/components/games/Snake.jsx:322-330 | a buffered direction that is not a reversal stays one after any request |
| Snake.NoTurnIntoNeck | frontend/src/components/games/Snake.jsx:192-198 | with the guard, the head never moves onto the segment behind it |
| Snake.FoodFrom | frontend/src/components/games/Snake.jsx:109-121 | the placement loop yields a cell exactly when some draw is free; that cell is on the grid, inside the board, off the snake, and the first free draw |
| Snake.DrawFood | frontend/src/components/games/Snake.jsx:114-118 | the do-while retry loop returns the first drawn cell not occupied by the snake, on the grid and inside the board |
| Snake.FoodAfterMeal | frontend/src/components/games/Snake.jsx:203-216 | food placed after a meal avoids the new head and the whole body |
| Snake.FoodAfterMealAsWritten | frontend/src/components/games/Snake.jsx:209 | the placement as written avoids only the body before the move, and finds a cell whenever the corrected placement does |
| Snake.AsWrittenFoodCanCoverHead | frontend/src/components/games/Snake.jsx:204-216 | with placement against the pre-move body, a draw of the eaten cell puts the new food under the head |
| Snake.ChasingTailIsFatal | frontend/src/components/games/Snake.jsx:193-198 | a head turning onto the current tail cell is a self-collision |
| Snake.StartSnake | frontend/src/components/games/Snake.jsx:276-286 | three on-grid cells in a horizontal row, head at the grid-aligned centre, each cell one step right of the one after it |
| Snake.SnakeGame.constructor | frontend/src/components/games/Snake.jsx:6-28 | not started, score 0, stored high score, easy, empty snake, food (0, 0), heading right |
| Snake.SnakeGame.StartGame | frontend/src/components/games/Snake.jsx:274-297 | running, starting snake, score 0, direction and next direction right, food at the (0, 0) mark, timer 0 |
| Snake.SnakeGame.EndGame | frontend/src/components/games/Snake.jsx:299-304 | the run is over and the high score becomes the score if it was beaten |
| Snake.SnakeGame.TogglePause | frontend/src/components/games/Snake.jsx:306-310 | the pause flips only during a run that is not over |
| Snake.SnakeGame.SetDifficulty | frontend/src/components/games/Snake.jsx:358-381 | the difficulty changes only when no run is in progress |
| Snake.SnakeGame.HandleKeyDown | frontend/src/components/games/Snake.jsx:30-67 | Space starts a game not yet started, Escape toggles the pause, an arrow steers only in a running game, and nothing else changes |
| Snake.SnakeGame.HandleSwipe | frontend/src/components/games/Snake.jsx:313-331 | a swipe starts a game not yet started, is ignored when paused or over, and otherwise steers |
| Snake.SnakeGame.ArmLoop | frontend/src/components/games/Snake.jsx:123-126 | food at the (0, 0) mark is placed off the snake; placed food is kept |
| Snake.SnakeGame.Tick | frontend/src/components/games/Snake.jsx:128-216 | no change before the interval; otherwise the buffered direction applies, a head off the board or on the body ends the run with the snake unchanged, a meal grows the snake by one and the score by one and re-places the food, any other move keeps the length; the snake stays on the board, in one piece, off the food and three cells longer than the score |
| Snake.SnakeGame.Slither | frontend/src/components/games/Snake.jsx:200-216 | a move that does not end the run prepends the new head; on the food the tail stays, the score rises by one and the new food is off the head and body, otherwise the tail is dropped and score and food stay; the snake stays on the board, in one piece, off the food |
| TrafficRacer.DifficultyOrdered | frontend/src/components/games/TrafficRacer.jsx:74-86 | harder settings move cars faster and spawn them more often |
| TrafficRacer.ObstacleSpeed | frontend/src/components/games/TrafficRacer.jsx:73-85 | pixels a car moves down per frame: 3, 5, 7 (no contract; `TrafficRacer.DifficultyOrdered` orders them) |
| TrafficRacer.SpawnInterval | frontend/src/components/games/TrafficRacer.jsx:74-85 | milliseconds between spawns: 1800, 1500, 1000 (no contract; ordered by `TrafficRacer.DifficultyOrdered`) |
| TrafficRacer.PlayerSpeed | frontend/src/components/games/TrafficRacer.jsx:212 | pixels the player's car steers per frame: 4, 5, 6 (no contract; ordered by `TrafficRacer.DifficultyOrdered`) |
| TrafficRacer.Steer | frontend/src/components/games/TrafficRacer.jsx:113-118 | left alone moves the car left by its speed exactly when it is right of the left margin, right alone moves it right exactly when it is left of the right margin, both held inside the band cancel out, a move left needs the left arrow and a move right the right one, no arrow means no move, and the car never leaves the band one step beyond the margins |
| TrafficRacer.SpawnCar | frontend/src/components/games/TrafficRacer.jsx:134-144 | a new car is a well-formed 40 by 70 car in one of the three lanes with its bottom edge at the top of the canvas |
| TrafficRacer.Collides | frontend/src/components/games/TrafficRacer.jsx:166-171 | the four strict edge comparisons of the player's car and a car (no contract; `TrafficRacer.CollidesIffCommonArea` gives its meaning) |
| TrafficRacer.CollidesIffCommonArea | frontend/src/components/games/TrafficRacer.jsx:166-171 | the collision test holds exactly when the two boxes share an area of positive width and height |
| TrafficRacer.TouchingIsNoCrash | frontend/src/components/games/TrafficRacer.jsx:166-171 | a car whose bottom edge touches the player's top edge does not collide |
| TrafficRacer.Advance | frontend/src/components/games/TrafficRacer.jsx:153 | a car moved down by the speed, lane and size kept (no contract; used by `TrafficRacer.FirstCrashFrom` and `TrafficRacer.Game.ScanObstacles`) |
| TrafficRacer.FirstCrashFrom | frontend/src/components/games/TrafficRacer.jsx:151-175 | the index found is the first car that collides after moving down; none found means none collides |
| TrafficRacer.Prune | frontend/src/components/games/TrafficRacer.jsx:177-180 | exactly the cars whose top edge is above the bottom of the canvas are kept, in order (it is `Arcade.Filter`) |
| TrafficRacer.Game.constructor | frontend/src/components/games/TrafficRacer.jsx:6-32 | not started, score 0, stored high score, car at its start, no cars |
| TrafficRacer.Game.StartGame | frontend/src/components/games/TrafficRacer.jsx:200-218 | running, score 0, car at (175, 400) with the difficulty's steering speed, no cars, timer at now |
| TrafficRacer.Game.EndGame | frontend/src/components/games/TrafficRacer.jsx:220-225 | the run is over and the high score becomes the score if it was beaten |
| TrafficRacer.Game.TogglePause | frontend/src/components/games/TrafficRacer.jsx:227-231 | the pause flips only during a run that is not over |
| TrafficRacer.Game.SetDifficulty | frontend/src/components/games/TrafficRacer.jsx:258-281 | the difficulty changes only when no run is in progress |
| TrafficRacer.Game.HandleKeyDown | frontend/src/components/games/TrafficRacer.jsx:34-47 | Space starts a game never started, Escape toggles the pause, nothing else changes |
| TrafficRacer.Game.Frame | frontend/src/components/games/TrafficRacer.jsx:91-183 | steer, then spawn with one point, then move every car down and stop at the first collision, else prune; the car never gets more than one steering step past the margins and every car is a lane-aligned car-sized box |
| TrafficRacer.Game.SteerPlayer | frontend/src/components/games/TrafficRacer.jsx:113-118 | the car's x becomes the steered x |
| TrafficRacer.Game.SpawnIfDue | frontend/src/components/games/TrafficRacer.jsx:131-148 | strictly more than the interval since the last spawn appends one car, restarts the timer and adds exactly one point; otherwise nothing changes |
| TrafficRacer.Game.MoveObstacles | frontend/src/components/games/TrafficRacer.jsx:150-180 | every car moves down by the speed with x unchanged up to the first collision, which ends the run and leaves the rest unmoved and unpruned; without collision all move and the cars off the bottom are dropped |
| TrafficRacer.Game.ScanObstacles | frontend/src/components/games/TrafficRacer.jsx:151-175 | the pass reports the first car that collides once moved down, and leaves exactly the cars up to it moved (all of them when none collides) |
| FlappyBird.DifficultyOrdered | frontend/src/components/games/FlappyBird.jsx:43-58 | harder settings move pipes faster, spawn them more often, narrow the gap and pull harder |
| FlappyBird.PipeSpeed | frontend/src/components/games/FlappyBird.jsx:43-58 | pixels a pipe moves left per frame: 1.5, 2, 3 (no contract; ordered by `FlappyBird.DifficultyOrdered`) |
| FlappyBird.PipeInterval | frontend/src/components/games/FlappyBird.jsx:44-57 | milliseconds between pipe spawns: 2500, 2000, 1500 (no contract; ordered by `FlappyBird.DifficultyOrdered`) |
| FlappyBird.GapHeight | frontend/src/components/games/FlappyBird.jsx:45-56 | the gap between the pipes: 200, 180, 150 (no contract; ordered by `FlappyBird.DifficultyOrdered`) |
| FlappyBird.Gravity | frontend/src/components/games/FlappyBird.jsx:47-57 | the gravity: 0.4, 0.5, 0.6 (no contract; ordered by `FlappyBird.DifficultyOrdered`) |
| FlappyBird.JumpStrength | frontend/src/components/games/FlappyBird.jsx:182 | the jump velocity: -8 on easy, -10 otherwise (no contract; used by `FlappyBird.Game.StartGame`) |
| FlappyBird.FallClosedForm | frontend/src/components/games/FlappyBird.jsx:64-66 | after n frames without a jump the velocity has grown by n times gravity and the height by n times the starting velocity plus gravity times n(n+1)/2 |
| FlappyBird.SpawnPipe | frontend/src/components/games/FlappyBird.jsx:74-86 | a new pipe pair starts at the right edge, uncounted, with the gap height between its pipes and at least 40 pixels of each pipe on screen |
| FlappyBird.HitsPipe | frontend/src/components/games/FlappyBird.jsx:101-105 | the bird overlaps the pipe horizontally and its top is above the gap or its bottom below it (no contract; `FlappyBird.HitsPipeIffBoxOverlap` gives its meaning) |
| FlappyBird.HitsPipeIffBoxOverlap | frontend/src/components/games/FlappyBird.jsx:100-108 | for a bird on screen the gap test equals strict box overlap with the top or the bottom pipe |
| FlappyBird.GapExamples | frontend/src/components/games/FlappyBird.jsx:101-105 | a bird inside the gap is safe and one whose top is inside the top pipe is hit |
| FlappyBird.MovePipe | frontend/src/components/games/FlappyBird.jsx:91 | a pipe moved left by the speed (no contract; used by `FlappyBird.FirstHitFrom` and `FlappyBird.Game.ScanPipes`) |
| FlappyBird.NewlyPassed | frontend/src/components/games/FlappyBird.jsx:111 | the pipe is not counted yet and the bird is right of its right edge (no contract; see `FlappyBird.ScoresAtMostOnce`) |
| FlappyBird.ScorePipe | frontend/src/components/games/FlappyBird.jsx:111-114 | a newly passed pipe becomes counted, any other is unchanged (no contract; see `FlappyBird.ScoresAtMostOnce`) |
| FlappyBird.Gained | frontend/src/components/games/FlappyBird.jsx:110-114 | one pass over n pipes scores at most n points |
| FlappyBird.GainedIsFlips | frontend/src/components/games/FlappyBird.jsx:110-114 | the points of a pass are exactly the pipes whose counted flag it turns from false to true |
| FlappyBird.FirstHitFrom | frontend/src/components/games/FlappyBird.jsx:88-108 | the index found is the first pipe the bird hits after the pipe moves; none found means none is hit |
| FlappyBird.Prune | frontend/src/components/games/FlappyBird.jsx:117-118 | exactly the pipes whose right edge is still on screen are kept, in order (it is `Arcade.Filter`) |
| FlappyBird.ScoresAtMostOnce | frontend/src/components/games/FlappyBird.jsx:110-114 | over any number of frames a pipe yields one point exactly when its flag went from false to true, and a counted pipe stays counted |
| FlappyBird.Game.constructor | frontend/src/components/games/FlappyBird.jsx:4-26 | not started, score 0, stored high score, bird at rest at 150 with gravity 0.5 and jump -10, no pipes |
| FlappyBird.Game.ArmLoop | frontend/src/components/games/FlappyBird.jsx:29-58 | a running game takes the gravity of the current difficulty |
| FlappyBird.Game.StartGame | frontend/src/components/games/FlappyBird.jsx:168-188 | running, score 0, bird at rest at 150 with the difficulty's gravity and jump, no pipes, timer at now |
| FlappyBird.Game.EndGame | frontend/src/components/games/FlappyBird.jsx:190-195 | the run is over and the high score becomes the score if it was beaten |
| FlappyBird.Game.TogglePause | frontend/src/components/games/FlappyBird.jsx:197-199 | the pause flips in every state |
| FlappyBird.Game.SetDifficulty | frontend/src/components/games/FlappyBird.jsx:242-261 | the difficulty changes at any time and a running game takes its gravity at once |
| FlappyBird.Game.HandleJump | frontend/src/components/games/FlappyBird.jsx:154-166 | ignored once over, starts a game not yet started, ignored while paused, otherwise sets the velocity to the jump strength |
| FlappyBird.Game.HandleKeyDown | frontend/src/components/games/FlappyBird.jsx:202-209 | Space acts as the jump button (starting a game not yet started, ignored when over or paused), Escape toggles the pause, other keys change nothing |
| FlappyBird.Game.Frame | frontend/src/components/games/FlappyBird.jsx:60-127 | fall, spawn, move and score pipes stopping at the first hit, prune, then end the run below the ground or above the ceiling; every pipe keeps both segments on screen |
| FlappyBird.Game.Fall | frontend/src/components/games/FlappyBird.jsx:64-66 | the velocity grows by gravity first and the new velocity moves the bird |
| FlappyBird.Game.SpawnIfDue | frontend/src/components/games/FlappyBird.jsx:72-86 | strictly more than the interval since the last spawn appends one pipe pair and restarts the timer; otherwise nothing changes |
| FlappyBird.Game.MovePipes | frontend/src/components/games/FlappyBird.jsx:88-118 | pipes move left in order; the first hit ends the run leaving later pipes unmoved; passed pipes score once; the score grows by exactly the pipes newly counted; without a hit the off-screen pipes are dropped |
| FlappyBird.Game.ScanPipes | frontend/src/components/games/FlappyBird.jsx:88-115 | the pass reports the first pipe the bird hits once moved; the pipes before it move and are scored, that one only moves, the later ones stay; the score grows by the pipes newly passed |
| FlappyBird.Game.CheckBounds | frontend/src/components/games/FlappyBird.jsx:120-124 | the run ends exactly when the bird's bottom edge is below the canvas or its top edge above it |
| TicTacToe.WinnerFrom | frontend/src/components/games/TicTacToe.jsx:35-42 | the scan returns a mark only when one of the remaining lines is all that mark, and none when no remaining line is complete |
| TicTacToe.WinnerOf | frontend/src/components/games/TicTacToe.jsx:23-42 | a winner is returned exactly when some line is all X or all O, and the winner owns such a line |
| TicTacToe.Full | frontend/src/components/games/TicTacToe.jsx:44 | every square holds a mark (no contract; used by `TicTacToe.StatusOf`) |
| TicTacToe.StatusOf | frontend/src/components/games/TicTacToe.jsx:23-49 | the status is the winner when a line is complete, a draw when none is and all nine squares are marked, otherwise the next player |
| TicTacToe.EmptyBoardUndecided | frontend/src/components/games/TicTacToe.jsx:51-56 | the empty board has no winner and its status names the player to move |
| TicTacToe.CountAfterMark | frontend/src/components/games/TicTacToe.jsx:17-18 | marking an empty square adds one to the mover's count and leaves the other's |
| TicTacToe.MoveKeepsAlternation | frontend/src/components/games/TicTacToe.jsx:14-21 | after a legal move X has as many marks as O, or one more, matching whose turn it is |
| TicTacToe.Board.constructor | frontend/src/components/games/TicTacToe.jsx:5-12 | nine empty squares, X to move, no winner, status naming X |
| TicTacToe.Board.CheckWinner | frontend/src/components/games/TicTacToe.jsx:23-49 | the winner is recorded when a line is complete and the status is set |
| TicTacToe.Board.HandleClick | frontend/src/components/games/TicTacToe.jsx:14-21 | a click after a win or on a taken square changes nothing; otherwise exactly that square gets the mover's mark and the turn passes |
| TicTacToe.Board.ResetGame | frontend/src/components/games/TicTacToe.jsx:51-56 | nine empty squares, X to move, no winner, status naming X |

## Left out

- Canvas drawing in every game (background, grid lines, the snake's eyes and shading, road markings and their offset, car details and colours, pipes): presentation only. The random colour of a Traffic Racer car is drawn but never read by the rules.
- JSX, overlays and button layout; the `disabled` state of the difficulty buttons is kept as the guard in `SetDifficulty`.
- React scheduling: hook dependency lists, stale state captured by key handlers, the `if (!canvas) return` check, and `requestAnimationFrame` / `cancelAnimationFrame`; a frame is one call of `Tick` or `Frame` and handlers act on the current state.
- `localStorage` and `parseInt`: the stored high score is a constructor parameter and writes are not modelled.
- Keyboard plumbing (`preventDefault`, listeners, the held-key map): only the logical command or the held-arrow booleans remain.
- Snake.DrawFood: on a full board the source loop never ends; the model requires the random stream to contain a free cell, so the non-terminating case is not modelled.
- Snake.SnakeGame.Slither: places the new food off the new head as well as off the body (the corrected placement of the Findings row), while the source avoids only the body before the move.
- Snake.SnakeGame.Tick: uses the corrected food placement (see Findings); the source's placement against the pre-move body is modelled only by `Snake.FoodAfterMealAsWritten`.
- The default branch of Snake's speed switch: the difficulty is always one of the three settings.
- Floating-point rounding in Flappy Bird: exact reals are used.
- TicTacToe.Board.HandleClick, TicTacToe.Board.ResetGame: the source builds a new nine-element array (a copy with the square set, or `Array(9).fill(null)`) and replaces the board; the model writes the squares in place, so sharing of old boards between renders is not modelled.
- The game selection page (`frontend/src/pages/GamesPage.jsx`) is not part of this model.

## Findings

| source | as written | input that shows it | evidently intended | confidence | as-written member | corrected member |
|---|---|---|---|---|---|---|
| frontend/src/components/games/Snake.jsx:209 | after a meal `placeFood` runs before the new snake is stored, so it only avoids the body before the move and may pick the cell the head has just entered | starting snake (160,160),(140,160),(120,160) heading right, food at (180,160), first random draw column 9 row 8 | new food never lies under any segment, the new head included | medium, not executed | Snake.AsWrittenFoodCanCoverHead | Snake.FoodAfterMeal |
