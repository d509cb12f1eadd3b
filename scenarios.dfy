/**
 * Concrete runs of the game from its first start: eating, hitting the wall,
 * a refused reversal, the difficulty table, and two quick turns between
 * ticks.
 */
module Scenarios {
  import opened Snake
  import Reachability

  /** The state right after the page loads: construction followed by startGame. */
  function Started(d: Difficulty, store: map<string, int>, f0: Tile, f1: Tile): GameState {
    StartGame(Reachability.Constructed(d, store, f0), f1)
  }

  /** The first tick onto food at (11, 10) grows the snake to four cells and scores. */
  lemma FirstTickEats(d: Difficulty, store: map<string, int>, f0: Tile, f1: Tile)
    ensures var r := Tick(Started(d, store, f0, Cell(11, 10)), f1);
      r.cells == [Cell(11, 10), Cell(10, 10), Cell(9, 10), Cell(8, 10)] &&
      r.maxCells == 4 && r.score == d.ScoreIncrement() && r.food == f1 &&
      !r.gameOver && r.loopRunning
  {
  }

  /** A head at (19, 10) moving right leaves the board: the game ends and the timer stops. */
  lemma HittingTheWallEnds(g: GameState, f: Tile)
    requires Reachability.Inv(g) && !g.gameOver && !g.paused
    requires g.cells[0] == Cell(19, 10) && g.dx == 1 && g.dy == 0
    ensures Tick(g, f).gameOver && !Tick(g, f).loopRunning
    ensures Tick(g, f).cells == g.cells && Tick(g, f).score == g.score
  {
  }

  /** Pressing left while moving right is refused. */
  lemma ReversalRefused(d: Difficulty, store: map<string, int>, f0: Tile, f1: Tile)
    ensures ChangeDirection(Started(d, store, f0, f1), Left) == Started(d, store, f0, f1)
  {
  }

  /** Hard: a tick every 100 ms and 20 points per food. */
  lemma HardTable()
    ensures Hard.Speed() == 100 && Hard.ScoreIncrement() == 20
    ensures Easy.Speed() > Normal.Speed() > Hard.Speed()
    ensures Easy.ScoreIncrement() < Normal.ScoreIncrement() < Hard.ScoreIncrement()
  {
  }

  /**
   * changeDirection compares a turn with the stored direction, not with the
   * last move. Up and then left between two ticks are each accepted, which
   * points the snake back into its own neck, and the next tick ends the game.
   */
  lemma DoubleTurnIntoNeck(d: Difficulty, store: map<string, int>, f0: Tile, f1: Tile, f2: Tile)
    ensures var s := Started(d, store, f0, f1);
      var up := ChangeDirection(s, Up);
      var left := ChangeDirection(up, Left);
      up.dx == 0 && up.dy == -1 && left.dx == -1 && left.dy == 0 &&
      Tick(left, f2).gameOver && !Tick(left, f2).loopRunning
  {
  }
}
