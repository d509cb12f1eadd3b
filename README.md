# Snake game model

This project models the `SnakeGame` class in `game.js`: the state machine of a grid-based snake game. The board has 20 × 20 tiles. The snake is a list of cells, head first, with a direction `(dx, dy)` and a target length `maxCells`. There is one food cell, a score, and a high score for each difficulty, kept in a persistent key-value store. The flags `gameOver` and `paused` and the game-loop timer control the lifecycle.

The project has four modules:

- `Snake` (snake.dfy) holds the values: `Cell`, the board bound `TileCount`, `Tile` (an in-bounds cell), `Direction`, the `Difficulty` table and `GameState`, a snapshot of every instance field the game changes. It also holds one pure transition function per operation of the class: `Reset`/`Init`, `ChangeDirection`, `Tick` (for `update`), `Collides` (for `checkCollision`), `UpdateScore`, `TogglePause`, `EndGame` and `StartGame`. Last, it holds `SwipeDirection`, the swipe classifier of the touch handler.
- `Reachability` (reach.dfy) holds:
  - the state invariant `Inv`: every cell is on the board, cells are pairwise distinct, each cell is next to the one before it, the length equals `maxCells` (at least 3), the direction is a unit step, `0 <= score <= highScore`, the store entry equals `highScore`, and no timer runs once the game is over;
  - the proofs that every transition keeps `Inv`;
  - `Run`, which applies a sequence of inputs, and lemmas about whole runs: the score never falls within a session, the high score never falls at all, and once the game is over, only a start changes the snake, the food or the score, and the game stays over.
- `SnakeEngine` (engine.dfy) holds the class `SnakeGame`. Its fields match the source's instance fields. Its methods update those fields in place, in the source's order: `unshift` of the head, then `pop` of the tail or the score bump. The part of `update` after the collision check is a separate method, `Advance`, and its eating branch is `Eat`. Each method is proved to leave the object in the state the matching `Snake` function computes from the old state. The methods the input handlers and the timer call (the constructor, `Init`, `ChangeDirection`, `Swipe`, `Update`, `TogglePause`, `EndGame`, `StartGame` and `Restart`) also keep `Valid()`, that is, `Inv`. The helpers `UpdateScore`, `Advance` and `Eat` do not promise `Valid()` by themselves: `Update` calls `Advance` only with a head that does not collide, and proves `Valid()` afterwards.
- `Scenarios` (scenarios.dfy) holds concrete runs: the first tick onto food, a wall hit, a refused reversal, the hard-difficulty numbers, and a double turn into the neck.

Behaviour worth knowing, as the code has it:

- `changeDirection` accepts a turn only when `snake.dx !== -dx && snake.dy !== -dy`. For unit steps, this holds exactly when the turn is at a right angle. The guard refuses the exact reversal, as intended. It also refuses the current direction itself.
- The guard compares the turn with the stored direction, not with the last move. Two accepted turns between ticks (up, then left, while moving right) therefore point the snake back at its neck, and the next tick ends the game (`Scenarios.DoubleTurnIntoNeck`).
- `togglePause` does not check `gameOver`, so the pause button (game.js:106) still flips the pause flag after a game ends. The space key cannot: it goes through `handleKeyPress`, which returns first when the game is over (game.js:182). `Reachability.PausePressed` is the button, so in the model a pause input flips the flag in any state. Nothing else in the state changes then (`Snake.TogglePause`, `Reachability.Apply`).
- Food can land on the snake. The model does not exclude this, and neither does the code.

Inputs that the source takes from the browser become parameters:

- The cell `getRandomFood` would return is passed in as a `Tile` to the constructor, `Init`, `Update`, `StartGame` and `Restart`.
- `localStorage` is a `map<string, int>` keyed `snakeHighScore_<easy|normal|hard>`. A missing entry reads as 0.
- The difficulty is passed to the constructor.

## Model

| member | source | states |
|---|---|---|
| Snake.Round | game.js:233 | `Math.round`: the result is within one half of its argument, with halves rounded up |
| Snake.Difficulty.ScoreIncrement | game.js:16-32 | the points per food (10, 15 and 20 for easy, normal and hard) equal `Math.round(10 * scoreMultiplier)` for the multipliers 1, 1.5 and 2, and are positive |
| Snake.UpdateScore | game.js:282-290 | the new high score is max(old high score, score); the store entry for the current difficulty is written, and set to the score, only when the score strictly exceeds the old high score; other keys and all other fields are unchanged |
| Snake.StoredHighScoreAfterWrite | game.js:80-83 | the entry updateScore writes for one difficulty is what init then reads for it, and the entries of the other difficulties read as before; the key is `snakeHighScore_` followed by `Difficulty.Key` (`StorageKey`, game.js:80-82 and 284-289) |
| Snake.Init | game.js:60-87 | init resets cells, direction, maxCells, food, flags and score, keeps the timer and the difficulty, reloads the stored high score (raised to 0), and leaves the store as it was unless the stored entry is negative, in which case updateScore writes 0 under the current key |
| Snake.Reset | game.js:60-87 | after init: cells (10,10),(9,10),(8,10), direction (1,0), maxCells 3, the given food, score 0, not over, not paused; the high score is the stored one (0 if absent), raised to 0, and the store agrees with it; the store is unchanged unless the stored entry is negative, when 0 is written under the current key |
| Snake.Occupied | game.js:251-253 | the `some` over the cells is true exactly when some cell equals the given one |
| Snake.Collides | game.js:243-254 | checkCollision is true exactly when the head is off the board on either axis or equals any current cell, the tail included |
| Snake.ChangeDirection | game.js:171-179 | no effect when over or paused; only the direction can change; the new direction is never the negation of the old one; a unit direction stays a unit direction; for a unit direction, the state changes exactly when the game runs and the turn is perpendicular |
| Snake.TogglePause | game.js:311-315 | the pause flag flips whatever `gameOver` is, and nothing else changes |
| Snake.EndGame | game.js:317-320 | the game is over and the loop is cleared; nothing else changes |
| Snake.NextHead | game.js:216-219 | the new head is next to the current head whenever the direction is a unit step |
| Snake.Advance | game.js:227-240 | the head is prepended; on food the old cells follow it, maxCells grows by one, the score rises by the increment, the food becomes the new cell, the high score follows the score, and the store is written under the current key only when the new score beats the old high score; off food the tail is dropped and nothing else changes; direction and flags never change |
| Snake.Tick | game.js:212-241 | a tick while over or paused changes nothing; from a running game, the tick ends the game exactly when the next head collides; the timer changes only by the game ending |
| Snake.TickOutcomes | game.js:212-241 | a halted tick changes nothing; a colliding tick ends the game and clears the loop, keeping cells, food and score; otherwise the new head is in bounds and not on the snake; on food the length and maxCells grow by one, the body is the old cells, the score rises by the increment, the food becomes the new cell, and the store gets the new score under the current key only when it beats the old high score; off food the body is the old cells without the tail and length, score and food are unchanged |
| Snake.StartGame | game.js:294-309 | while the loop runs, nothing changes; otherwise the game is re-initialised (score 0, not over, not paused, snake reset, stored high score, store unchanged unless its entry is negative) and the loop is marked running |
| Snake.SwipeDirection | game.js:149-167 | no direction exactly when both deltas are at most 50 in size; otherwise the swipe moved more than 50 pixels along the returned direction, which is horizontal exactly when the horizontal delta is strictly larger (ties go vertical) |
| Reachability.PrependKeepsWellFormed | game.js:228 | prepending an in-bounds cell that is next to the head and not on the snake keeps the snake well formed |
| Reachability.DropLastKeepsWellFormed | game.js:239 | dropping the tail keeps the snake well formed |
| Reachability.EatKeepsInv | game.js:228-236 | eating keeps the invariant: the grown snake is well formed with length maxCells + 1, and the high score and the store follow the raised score |
| Reachability.MoveKeepsInv | game.js:228-239 | moving without eating keeps the invariant |
| Reachability.AdvanceKeepsInv | game.js:227-240 | prepending a non-colliding head, then eating or dropping the tail, keeps the invariant |
| Reachability.ResetKeepsInv | game.js:62-69 | the state init leaves behind satisfies the invariant |
| Reachability.TickKeepsInv | game.js:216-240 | a tick keeps the cells in bounds, distinct and adjacent, with length maxCells, and keeps the score and high-score relations |
| Reachability.Apply | game.js:145-209 | the inputs the handlers forward: a turn (key or swipe) changes only the direction, the pause button only flips the pause flag, a timer tick does nothing while no timer is set, and no input changes the difficulty |
| Reachability.ApplyKeepsInv | game.js:96-108 | every input (turn, swipe, tick, pause, start) keeps the invariant |
| Reachability.Run | game.js:304-307 | the state after any sequence of inputs satisfies the invariant |
| Reachability.ReachableStatesAreValid | game.js:62-69 | every state reachable from construction (`Constructed`: init with no timer, game.js:51) keeps cells in bounds, distinct and adjacent, with length maxCells |
| Reachability.StepMonotone | game.js:212-315 | one input never lowers the high score or changes the difficulty; a tick, turn or pause, or a start while the loop runs, never lowers the score; once the game is over, such an input keeps it over with no timer and keeps cells, food and score |
| Reachability.ScoreNeverDecreases | game.js:233 | within a session, where every start or restart comes while the loop runs and so does nothing, the score never decreases |
| Reachability.HighScoreNeverDecreases | game.js:80-83 | over any inputs, restarts included, the high score and its stored entry never decrease, and the difficulty never changes |
| Reachability.RestartKeepsHighScore | game.js:80-83 | starting again after a game keeps the high score that game reached, and the score restarts at 0 |
| Reachability.OverIsFinal | game.js:212-213 | once over, no input but a start changes cells, food or score, and the game stays over with no timer |
| Reachability.TogglePauseTwice | game.js:311-312 | pausing twice restores the state |
| Reachability.HaltedInputsChangeNothing | game.js:294-295 | a tick while over or paused, and a start while the loop runs, change nothing |
| Scenarios.FirstTickEats | game.js:228-236 | from the first start, a tick onto food at (11,10) gives (11,10),(10,10),(9,10),(8,10), maxCells 4, score one increment, and the new food |
| Scenarios.HittingTheWallEnds | game.js:245-247 | a head at (19,10) moving right ends the game, stops the loop and keeps cells and score |
| Scenarios.ReversalRefused | game.js:175 | pressing left while moving right leaves the state unchanged |
| Scenarios.HardTable | game.js:16-32 | the table of `Difficulty.Speed` and `Difficulty.ScoreIncrement`: hard ticks every 100 ms and scores 20; intervals shrink and increments grow from easy to hard |
| Scenarios.DoubleTurnIntoNeck | game.js:171-179 | up, then left, between two ticks are both accepted, and the next tick ends the game on the neck |
| SnakeEngine.SnakeGame.constructor | game.js:2-58 | the new object is in the state `Reset` gives, with no loop running, and is valid |
| SnakeEngine.SnakeGame.Init | game.js:60-87 | the fields become `Snake.Init` of the old state; the object is valid afterwards |
| SnakeEngine.SnakeGame.UpdateScore | game.js:282-292 | the fields become `Snake.UpdateScore` of the old state |
| SnakeEngine.SnakeGame.ChangeDirection | game.js:171-179 | the fields become `Snake.ChangeDirection` of the old state, and validity is kept |
| SnakeEngine.SnakeGame.Swipe | game.js:145-167 | a classified swipe turns the snake as `ChangeDirection` does; anything else leaves it alone |
| SnakeEngine.SnakeGame.Update | game.js:212-241 | the fields become `Snake.Tick` of the old state, and validity is kept |
| SnakeEngine.SnakeGame.Advance | game.js:227-240 | the fields become `Snake.Advance` of the old state: the head is prepended, then the snake eats or drops its tail |
| SnakeEngine.SnakeGame.Eat | game.js:230-236 | the fields become those of `Snake.UpdateScore` applied after the score bump, with the new food and one more cell |
| SnakeEngine.SnakeGame.TogglePause | game.js:311-315 | the fields become `Snake.TogglePause` of the old state |
| SnakeEngine.SnakeGame.EndGame | game.js:317-320 | the fields become `Snake.EndGame` of the old state |
| SnakeEngine.SnakeGame.StartGame | game.js:294-309 | the fields become `Snake.StartGame` of the old state, and validity is kept |
| SnakeEngine.SnakeGame.Restart | game.js:331-334 | the same as `StartGame`: while the loop runs, nothing changes |

## Left out

- Drawing in `draw` and the resizing of the canvas for mobile devices: pixel rendering with a fractional tile size and no state change.
- DOM lookups and `textContent` updates: the score text, the pause-button label, the final-score text and the overlay classes. The difficulty's display name (`name`) is used only in that text and is not modelled.
- Event-listener wiring in `bindEvents` and `bindTouchControls` (apart from the swipe arithmetic), `handleKeyPress` (the mapping of keys to directions), and the home-button navigation: browser input and output.
- `setInterval`/`clearInterval`: timing is not modelled. The timer handle is the boolean `loopRunning`, and the tick interval is `Difficulty.Speed`. A timer tick among the inputs of `Reachability.Run` takes effect only while `loopRunning` holds, as the timer exists only then.
- `Math.random` in `getRandomFood`: the result is a caller-supplied `Tile` in `[0, 20)` on both axes. It is not required to be off the snake.
- The stored strings of `localStorage` and `parseInt`: the store holds integers. An entry that does not parse as a number is not modelled.
- Reading the difficulty from the URL, and the user-agent check: the difficulty is a constructor argument. An unrecognised URL value, which the source turns into `undefined`, is outside the model.
- The unused fields `snake.x` and `snake.y`.
- JavaScript numbers are doubles. Coordinates, pixel deltas and scores are modelled as unbounded integers. They stay far below 2^53. Fractional touch coordinates, and so fractional swipe deltas such as 50.5, are not modelled.
