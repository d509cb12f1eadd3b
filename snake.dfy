/**
 * Values and pure transitions of the snake game (game.js, class SnakeGame).
 *
 * A GameState is a snapshot of every instance field the game updates; each
 * operation of the game is a function from one snapshot to the next. The
 * class in engine.dfy performs the same steps on its fields and is proved to
 * agree with these functions.
 */
module Snake {

  datatype Option<T> = None | Some(value: T)

  /** A grid square, addressed by column x and row y (y grows downwards). */
  datatype Cell = Cell(x: int, y: int)

  /** Number of tiles along each side of the square board. */
  const TileCount: int := 20

  predicate InBounds(c: Cell) {
    0 <= c.x < TileCount && 0 <= c.y < TileCount
  }

  /** A cell on the board: what getRandomFood can return. */
  type Tile = c: Cell | InBounds(c) witness Cell(0, 0)

  function Abs(n: int): nat {
    if n < 0 then -n else n
  }

  function Max(a: int, b: int): (m: int)
    ensures m >= a && m >= b
    ensures m == a || m == b
  {
    if a >= b then a else b
  }

  /** The four directions the input handlers pass to changeDirection. */
  datatype Direction = Up | Down | Left | Right {
    function Dx(): int {
      match this
      case Left => -1
      case Right => 1
      case _ => 0
    }

    function Dy(): int {
      match this
      case Up => -1
      case Down => 1
      case _ => 0
    }

    /** The component of the vector (vx, vy) along this direction. */
    function Along(vx: int, vy: int): (p: int)
      ensures p == Dx() * vx + Dy() * vy
    {
      match this
      case Left => -vx
      case Right => vx
      case Up => -vy
      case Down => vy
    }
  }

  /** (vx, vy) is one of the four unit steps. */
  predicate IsUnit(vx: int, vy: int) {
    (vx == 0 && (vy == 1 || vy == -1)) || (vy == 0 && (vx == 1 || vx == -1))
  }

  /** Two cells that share a side. */
  predicate Adjacent(a: Cell, b: Cell) {
    IsUnit(a.x - b.x, a.y - b.y)
  }

  /** Math.round: round half up. */
  function Round(v: real): (n: int)
    ensures n as real - 0.5 <= v < n as real + 0.5
  {
    (v + 0.5).Floor
  }

  /** The difficulty table: tick interval, score multiplier and storage key. */
  datatype Difficulty = Easy | Normal | Hard {
    /** Milliseconds between two ticks of the game loop. */
    function Speed(): nat {
      match this
      case Easy => 200
      case Normal => 150
      case Hard => 100
    }

    function Multiplier(): real {
      match this
      case Easy => 1.0
      case Normal => 1.5
      case Hard => 2.0
    }

    /** The name under which the high score of this difficulty is kept. */
    function Key(): string {
      match this
      case Easy => "easy"
      case Normal => "normal"
      case Hard => "hard"
    }

    /** Points for one food; the source computes Math.round(10 * multiplier). */
    function ScoreIncrement(): (n: int)
      ensures n == Round(10.0 * Multiplier())
      ensures n > 0
    {
      match this
      case Easy => 10
      case Normal => 15
      case Hard => 20
    }
  }

  function StorageKey(d: Difficulty): string {
    "snakeHighScore_" + d.Key()
  }

  /** What init reads from the store for difficulty d; an absent entry reads as 0. */
  function StoredHighScore(store: map<string, int>, d: Difficulty): int {
    if StorageKey(d) in store then store[StorageKey(d)] else 0
  }

  /**
   * Writing the entry of difficulty d is what the next read for d returns,
   * and leaves the entries of the other difficulties as they were.
   */
  lemma StoredHighScoreAfterWrite(store: map<string, int>, d: Difficulty, e: Difficulty, v: int)
    ensures StoredHighScore(store[StorageKey(d) := v], d) == v
    ensures e != d ==> StoredHighScore(store[StorageKey(d) := v], e) == StoredHighScore(store, e)
  {
    if e != d {
      assert StorageKey(e)[15] != StorageKey(d)[15];
    }
  }

  /**
   * Every instance field the game changes. `loopRunning` stands for the
   * timer handle gameLoop being set; `store` is the persistent key-value
   * store that holds the high scores.
   */
  datatype GameState = GameState(
    cells: seq<Cell>,
    dx: int,
    dy: int,
    maxCells: int,
    food: Tile,
    score: int,
    highScore: int,
    gameOver: bool,
    paused: bool,
    loopRunning: bool,
    difficulty: Difficulty,
    store: map<string, int>)

  function InitialCells(): seq<Cell> {
    [Cell(10, 10), Cell(9, 10), Cell(8, 10)]
  }

  /** The high-score part of updateScore. */
  function UpdateScore(g: GameState): (r: GameState)
    ensures r.highScore == Max(g.highScore, g.score)
    ensures g.score <= g.highScore ==> r == g
    ensures g.score > g.highScore ==> StoredHighScore(r.store, g.difficulty) == g.score
    ensures forall k :: k != StorageKey(g.difficulty) ==>
      (k in r.store <==> k in g.store) && (k in r.store ==> r.store[k] == g.store[k])
    ensures StorageKey(g.difficulty) in g.store ==> StorageKey(g.difficulty) in r.store
    ensures r == g.(highScore := r.highScore, store := r.store)
  {
    if g.score > g.highScore then
      g.(highScore := g.score, store := g.store[StorageKey(g.difficulty) := g.score])
    else
      g
  }

  /**
   * The state init leaves behind, for a game of difficulty d whose timer is
   * running exactly when `loop` holds.
   */
  function Reset(d: Difficulty, store: map<string, int>, food: Tile, loop: bool): (r: GameState)
    ensures r.cells == InitialCells() && r.maxCells == 3
    ensures r.dx == 1 && r.dy == 0
    ensures r.food == food && r.score == 0
    ensures !r.gameOver && !r.paused && r.loopRunning == loop
    ensures r.difficulty == d
    ensures r.highScore == Max(StoredHighScore(store, d), 0)
    ensures StoredHighScore(r.store, d) == r.highScore
    ensures r.store == if StoredHighScore(store, d) < 0 then store[StorageKey(d) := 0] else store
  {
    UpdateScore(GameState(InitialCells(), 1, 0, 3, food, 0, StoredHighScore(store, d),
                          false, false, loop, d, store))
  }

  /** init: resets the snake, the food, the flags and the score, and reloads the high score. */
  function Init(g: GameState, food: Tile): (r: GameState)
    ensures r.cells == InitialCells() && r.maxCells == 3 && r.dx == 1 && r.dy == 0
    ensures r.food == food && r.score == 0 && !r.gameOver && !r.paused
    ensures r.loopRunning == g.loopRunning && r.difficulty == g.difficulty
    ensures r.highScore == Max(StoredHighScore(g.store, g.difficulty), 0)
    ensures r.store ==
      if StoredHighScore(g.store, g.difficulty) < 0 then g.store[StorageKey(g.difficulty) := 0] else g.store
  {
    Reset(g.difficulty, g.store, food, g.loopRunning)
  }

  /** The `some` over the snake's cells in checkCollision. */
  function Occupied(cells: seq<Cell>, c: Cell): (r: bool)
    ensures r <==> exists i :: 0 <= i < |cells| && cells[i] == c
    decreases |cells|
  {
    |cells| > 0 && (cells[0] == c || Occupied(cells[1..], c))
  }

  /** checkCollision: the head leaves the board or lands on a cell of the snake. */
  function Collides(cells: seq<Cell>, head: Cell): (r: bool)
    ensures r <==> !InBounds(head) || head in cells
  {
    !InBounds(head) || Occupied(cells, head)
  }

  /** changeDirection; its guard only lets through a turn by a right angle. */
  function ChangeDirection(g: GameState, d: Direction): (r: GameState)
    ensures g.gameOver || g.paused ==> r == g
    ensures r == g.(dx := r.dx, dy := r.dy)
    ensures r != g ==> r.dx == d.Dx() && r.dy == d.Dy()
    ensures !(g.dx == 0 && g.dy == 0) ==> !(r.dx == -g.dx && r.dy == -g.dy)
    ensures IsUnit(g.dx, g.dy) ==> IsUnit(r.dx, r.dy)
    ensures IsUnit(g.dx, g.dy) ==>
      (r != g <==> !g.gameOver && !g.paused && d.Along(g.dx, g.dy) == 0)
  {
    if g.gameOver || g.paused then g
    else if g.dx != -d.Dx() && g.dy != -d.Dy() then g.(dx := d.Dx(), dy := d.Dy())
    else g
  }

  /** togglePause: flips the flag, whether or not the game is over. */
  function TogglePause(g: GameState): (r: GameState)
    ensures r.paused != g.paused
    ensures r == g.(paused := r.paused)
  {
    g.(paused := !g.paused)
  }

  /** endGame: marks the game over and clears the timer. */
  function EndGame(g: GameState): (r: GameState)
    ensures r.gameOver && !r.loopRunning
    ensures r == g.(gameOver := r.gameOver, loopRunning := r.loopRunning)
  {
    g.(gameOver := true, loopRunning := false)
  }

  /** The cell the head moves to on the next tick. */
  function NextHead(g: GameState): (h: Cell)
    requires |g.cells| > 0
    ensures IsUnit(g.dx, g.dy) ==> Adjacent(h, g.cells[0])
  {
    Cell(g.cells[0].x + g.dx, g.cells[0].y + g.dy)
  }

  /**
   * The second half of update, once the new head is known not to collide:
   * prepend it, then either eat (score, new food, one more cell) or drop the
   * tail.
   */
  function Advance(g: GameState, head: Cell, newFood: Tile): (r: GameState)
    ensures r.dx == g.dx && r.dy == g.dy && r.difficulty == g.difficulty
    ensures r.gameOver == g.gameOver && r.paused == g.paused && r.loopRunning == g.loopRunning
    ensures head == g.food ==>
      r.cells == [head] + g.cells && r.maxCells == g.maxCells + 1 &&
      r.score == g.score + g.difficulty.ScoreIncrement() && r.food == newFood &&
      r.highScore == Max(g.highScore, r.score) &&
      r.store == if r.score > g.highScore then g.store[StorageKey(g.difficulty) := r.score] else g.store
    ensures head != g.food && |g.cells| > 0 ==>
      r.cells == [head] + g.cells[..|g.cells| - 1] && r.maxCells == g.maxCells &&
      r.score == g.score && r.food == g.food && r.highScore == g.highScore && r.store == g.store
  {
    var grown := [head] + g.cells;
    if head == g.food then
      UpdateScore(g.(cells := grown, score := g.score + g.difficulty.ScoreIncrement()))
        .(food := newFood, maxCells := g.maxCells + 1)
    else
      g.(cells := grown[..|grown| - 1])
  }

  /**
   * update: one tick. `newFood` is the cell getRandomFood would return if
   * the snake eats on this tick.
   */
  function Tick(g: GameState, newFood: Tile): (r: GameState)
    requires |g.cells| > 0
    ensures g.gameOver || g.paused ==> r == g
    ensures !g.gameOver ==> (r.gameOver <==> !g.paused && Collides(g.cells, NextHead(g)))
    ensures r.loopRunning != g.loopRunning ==> r.gameOver && !r.loopRunning
  {
    if g.gameOver || g.paused then g
    else if Collides(g.cells, NextHead(g)) then EndGame(g)
    else Advance(g, NextHead(g), newFood)
  }

  /** What one tick does, case by case. */
  lemma TickOutcomes(g: GameState, newFood: Tile)
    requires |g.cells| > 0
    ensures var r := Tick(g, newFood);
      r.dx == g.dx && r.dy == g.dy && r.paused == g.paused && r.difficulty == g.difficulty
    ensures g.gameOver || g.paused ==> Tick(g, newFood) == g
    ensures var r, head := Tick(g, newFood), NextHead(g);
      !g.gameOver && !g.paused && Collides(g.cells, head) ==>
        r.gameOver && !r.loopRunning && r.cells == g.cells && r.food == g.food &&
        r.score == g.score && r.highScore == g.highScore && r.store == g.store
    ensures var r, head := Tick(g, newFood), NextHead(g);
      !g.gameOver && !g.paused && !Collides(g.cells, head) ==>
        !r.gameOver && r.loopRunning == g.loopRunning &&
        |r.cells| > 0 && r.cells[0] == head && InBounds(head) && head !in g.cells
    ensures var r, head := Tick(g, newFood), NextHead(g);
      !g.gameOver && !g.paused && !Collides(g.cells, head) && head == g.food ==>
        |r.cells| == |g.cells| + 1 && r.cells[1..] == g.cells && r.maxCells == g.maxCells + 1 &&
        r.score == g.score + g.difficulty.ScoreIncrement() && r.food == newFood &&
        r.highScore == Max(g.highScore, r.score) &&
        r.store == if r.score > g.highScore then g.store[StorageKey(g.difficulty) := r.score] else g.store
    ensures var r, head := Tick(g, newFood), NextHead(g);
      !g.gameOver && !g.paused && !Collides(g.cells, head) && head != g.food ==>
        |r.cells| == |g.cells| && r.cells[1..] == g.cells[..|g.cells| - 1] &&
        r.maxCells == g.maxCells && r.score == g.score && r.food == g.food &&
        r.highScore == g.highScore && r.store == g.store
  {
  }

  /**
   * startGame (and restart, which calls it): does nothing while the loop
   * runs; otherwise re-initialises and marks the loop running.
   */
  function StartGame(g: GameState, food: Tile): (r: GameState)
    ensures g.loopRunning ==> r == g
    ensures !g.loopRunning ==>
      r.cells == InitialCells() && r.maxCells == 3 && r.dx == 1 && r.dy == 0 &&
      r.food == food && r.score == 0 && !r.gameOver && !r.paused && r.loopRunning &&
      r.difficulty == g.difficulty &&
      r.highScore == Max(StoredHighScore(g.store, g.difficulty), 0) &&
      r.store == if StoredHighScore(g.store, g.difficulty) < 0
                 then g.store[StorageKey(g.difficulty) := 0] else g.store
  {
    if g.loopRunning then g
    else Init(g, food).(paused := false, loopRunning := true)
  }

  /**
   * The swipe classifier of the touchend handler, on the pixel deltas
   * (px, py) between the start and the end of the touch.
   */
  function SwipeDirection(px: int, py: int): (r: Option<Direction>)
    ensures r.None? <==> Abs(px) <= 50 && Abs(py) <= 50
    ensures r.Some? ==> r.value.Along(px, py) > 50
    ensures r.Some? ==> (r.value.Dx() != 0 <==> Abs(px) > Abs(py))
  {
    if Abs(px) > Abs(py) then
      if px > 50 then Some(Right) else if px < -50 then Some(Left) else None
    else
      if py > 50 then Some(Down) else if py < -50 then Some(Up) else None
  }
}
