/**
 * The SnakeGame object: the instance fields of game.js and the methods that
 * update them in place. Each method is proved to leave the object in the
 * state the matching function of module Snake computes from the old one,
 * and to keep the invariant of module Reachability.
 */
module SnakeEngine {
  import opened Snake
  import Reachability

  class SnakeGame {
    /** The snake's cells, head first. */
    var cells: seq<Cell>
    var dx: int
    var dy: int
    var maxCells: int
    var food: Tile
    var score: int
    var highScore: int
    var gameOver: bool
    var paused: bool
    /** Whether the timer handle gameLoop is set. */
    var loopRunning: bool
    const difficulty: Difficulty
    /** The persistent store (localStorage) of high scores. */
    var store: map<string, int>

    ghost function State(): GameState
      reads this
    {
      GameState(cells, dx, dy, maxCells, food, score, highScore,
                gameOver, paused, loopRunning, difficulty, store)
    }

    ghost predicate Valid()
      reads this
    {
      Reachability.Inv(State())
    }

    /** The game for difficulty d, initialised, with no timer yet. */
    constructor (d: Difficulty, persisted: map<string, int>, firstFood: Tile)
      ensures State() == Reset(d, persisted, firstFood, false)
      ensures Valid()
    {
      difficulty := d;
      store := persisted;
      loopRunning := false;
      food := firstFood;
      new;
      Init(firstFood);
    }

    method Init(newFood: Tile)
      modifies this
      ensures State() == Snake.Init(old(State()), newFood)
      ensures Valid()
    {
      ghost var g := State();
      cells := [Cell(10, 10), Cell(9, 10), Cell(8, 10)];
      dx, dy := 1, 0;
      maxCells := 3;
      food := newFood;
      gameOver := false;
      paused := false;
      score := 0;
      highScore := StoredHighScore(store, difficulty);
      assert State() == GameState(InitialCells(), 1, 0, 3, newFood, 0, StoredHighScore(g.store, g.difficulty),
                                  false, false, g.loopRunning, g.difficulty, g.store);
      UpdateScore();
      Reachability.ResetKeepsInv(g.difficulty, g.store, newFood, g.loopRunning);
      Reachability.InvTransfer(Snake.Init(g, newFood), State());
    }

    /** The high-score part of updateScore. */
    method UpdateScore()
      modifies this`highScore, this`store
      ensures State() == Snake.UpdateScore(old(State()))
    {
      if score > highScore {
        highScore := score;
        store := store[StorageKey(difficulty) := highScore];
      }
    }

    method ChangeDirection(d: Direction)
      requires Valid()
      modifies this`dx, this`dy
      ensures Valid()
      ensures State() == Snake.ChangeDirection(old(State()), d)
    {
      if gameOver || paused {
        return;
      }
      if dx != -d.Dx() && dy != -d.Dy() {
        dx := d.Dx();
        dy := d.Dy();
      }
    }

    /** The touchend handler: classify the swipe, then turn if it was one. */
    method Swipe(px: int, py: int)
      requires Valid()
      modifies this`dx, this`dy
      ensures Valid()
      ensures State() == Reachability.Apply(old(State()), Reachability.Swiped(px, py))
    {
      var s := SwipeDirection(px, py);
      if s.Some? {
        ChangeDirection(s.value);
      }
    }

    /** update: one tick of the game loop. */
    method Update(newFood: Tile)
      requires Valid()
      modifies this
      ensures Valid()
      ensures State() == Tick(old(State()), newFood)
    {
      ghost var g := State();
      Reachability.TickKeepsInv(g, newFood);
      if gameOver || paused {
        return;
      }
      var head := Cell(cells[0].x + dx, cells[0].y + dy);
      assert head == NextHead(g);
      if Collides(cells, head) {
        EndGame();
        return;
      }
      assert Tick(g, newFood) == Snake.Advance(g, head, newFood);
      Advance(head, newFood);
      Reachability.InvTransfer(Tick(g, newFood), State());
    }

    /** The rest of update, once the new head is known not to collide. */
    method Advance(head: Cell, newFood: Tile)
      modifies this
      ensures State() == Snake.Advance(old(State()), head, newFood)
    {
      ghost var g := State();
      cells := [head] + cells;
      ghost var grown := State();
      assert grown == g.(cells := [head] + g.cells);
      if head == food {
        Eat(newFood);
      } else {
        cells := cells[..|cells| - 1];
        assert State() == grown.(cells := grown.cells[..|grown.cells| - 1]);
      }
    }

    /** The eating branch of update: score, high score, new food, one more cell. */
    method Eat(newFood: Tile)
      modifies this`score, this`highScore, this`store, this`food, this`maxCells
      ensures State() == Snake.UpdateScore(old(State()).(score := old(score) + difficulty.ScoreIncrement()))
                           .(food := newFood, maxCells := old(maxCells) + 1)
    {
      ghost var g := State();
      score := score + difficulty.ScoreIncrement();
      assert State() == g.(score := g.score + difficulty.ScoreIncrement());
      UpdateScore();
      ghost var updated := State();
      food := newFood;
      maxCells := maxCells + 1;
      assert State() == updated.(food := newFood, maxCells := updated.maxCells + 1);
    }

    method TogglePause()
      requires Valid()
      modifies this`paused
      ensures Valid()
      ensures State() == Snake.TogglePause(old(State()))
    {
      paused := !paused;
    }

    method EndGame()
      requires Valid()
      modifies this`gameOver, this`loopRunning
      ensures Valid()
      ensures State() == Snake.EndGame(old(State()))
    {
      gameOver := true;
      loopRunning := false;
    }

    method StartGame(newFood: Tile)
      requires Valid()
      modifies this
      ensures Valid()
      ensures State() == Snake.StartGame(old(State()), newFood)
    {
      if !loopRunning {
        Init(newFood);
        paused := false;
        loopRunning := true;
      }
    }

    /** restart: hides the game-over overlay and calls startGame. */
    method Restart(newFood: Tile)
      requires Valid()
      modifies this
      ensures Valid()
      ensures State() == Snake.StartGame(old(State()), newFood)
    {
      StartGame(newFood);
    }
  }
}
