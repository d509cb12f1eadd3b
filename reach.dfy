/**
 * The invariants every reachable state of the snake game keeps, and what
 * holds of whole sequences of inputs.
 */
module Reachability {
  import opened Snake

  /** All cells on the board, pairwise distinct, each next to the one before. */
  predicate WellFormedSnake(cells: seq<Cell>) {
    (forall i :: 0 <= i < |cells| ==> InBounds(cells[i])) &&
    (forall i, j :: 0 <= i < j < |cells| ==> cells[i] != cells[j]) &&
    (forall i :: 0 <= i < |cells| - 1 ==> Adjacent(cells[i], cells[i + 1]))
  }

  /**
   * The state invariant: a well-formed snake of length maxCells moving by a
   * unit step, a score no larger than the high score the store holds, and
   * no timer running once the game is over.
   */
  predicate Inv(g: GameState) {
    |g.cells| == g.maxCells && g.maxCells >= 3 &&
    WellFormedSnake(g.cells) &&
    IsUnit(g.dx, g.dy) &&
    0 <= g.score <= g.highScore &&
    StoredHighScore(g.store, g.difficulty) == g.highScore &&
    (g.gameOver ==> !g.loopRunning)
  }

  /** The inputs the game reacts to. A restart is a start with the overlay hidden. */
  datatype Event =
    | Turn(dir: Direction)
    | Swiped(px: int, py: int)
    | TimerTick(newFood: Tile)
    | PausePressed
    | StartPressed(food: Tile)

  /**
   * One input. Turns and swipes change only the direction, the pause button
   * only the pause flag; only ticks and starts move the snake or change the
   * score. The timer fires only while it is set: before the first start and
   * after the game ends there is no timer, and a tick event does nothing.
   */
  function Apply(g: GameState, e: Event): (r: GameState)
    requires |g.cells| > 0
    ensures e.Turn? || e.Swiped? ==> r == g.(dx := r.dx, dy := r.dy)
    ensures e.PausePressed? ==> r == g.(paused := !g.paused)
    ensures e.TimerTick? && !g.loopRunning ==> r == g
    ensures r.difficulty == g.difficulty
  {
    match e
    case Turn(d) => ChangeDirection(g, d)
    case Swiped(px, py) =>
      (match SwipeDirection(px, py)
       case None => g
       case Some(d) => ChangeDirection(g, d))
    case TimerTick(f) => if g.loopRunning then Tick(g, f) else g
    case PausePressed => TogglePause(g)
    case StartPressed(f) => StartGame(g, f)
  }

  /**
   * Inv carried over to an equal state. This only substitutes equals: it is
   * called so that the verifier checks Inv once on a value instead of once
   * per conjunct on an object's fields.
   */
  lemma InvTransfer(g: GameState, h: GameState)
    requires Inv(g) && g == h
    ensures Inv(h)
  {
  }

  lemma PrependKeepsWellFormed(cells: seq<Cell>, head: Cell)
    requires WellFormedSnake(cells) && |cells| > 0
    requires InBounds(head) && head !in cells && Adjacent(head, cells[0])
    ensures WellFormedSnake([head] + cells)
  {
  }

  lemma DropLastKeepsWellFormed(cells: seq<Cell>)
    requires WellFormedSnake(cells) && |cells| > 0
    ensures WellFormedSnake(cells[..|cells| - 1])
  {
  }

  lemma ResetKeepsInv(d: Difficulty, store: map<string, int>, food: Tile, loop: bool)
    ensures Inv(Reset(d, store, food, loop))
  {
  }

  /** Eating: the head is prepended, the score rises and the high score follows it. */
  lemma EatKeepsInv(g: GameState, f: Tile)
    requires Inv(g) && !Collides(g.cells, NextHead(g)) && NextHead(g) == g.food
    ensures Inv(Advance(g, NextHead(g), f))
  {
    PrependKeepsWellFormed(g.cells, NextHead(g));
  }

  /** Moving: the head is prepended and the tail dropped. */
  lemma MoveKeepsInv(g: GameState, f: Tile)
    requires Inv(g) && !Collides(g.cells, NextHead(g)) && NextHead(g) != g.food
    ensures Inv(Advance(g, NextHead(g), f))
  {
    PrependKeepsWellFormed(g.cells, NextHead(g));
    DropLastKeepsWellFormed([NextHead(g)] + g.cells);
  }

  lemma AdvanceKeepsInv(g: GameState, f: Tile)
    requires Inv(g) && !Collides(g.cells, NextHead(g))
    ensures Inv(Advance(g, NextHead(g), f))
  {
    if NextHead(g) == g.food {
      EatKeepsInv(g, f);
    } else {
      MoveKeepsInv(g, f);
    }
  }

  lemma TickKeepsInv(g: GameState, f: Tile)
    requires Inv(g)
    ensures Inv(Tick(g, f))
  {
    if !g.gameOver && !g.paused && !Collides(g.cells, NextHead(g)) {
      AdvanceKeepsInv(g, f);
    }
  }

  lemma ApplyKeepsInv(g: GameState, e: Event)
    requires Inv(g)
    ensures Inv(Apply(g, e))
  {
    match e
    case TimerTick(f) =>
      if g.loopRunning {
        TickKeepsInv(g, f);
      }
    case StartPressed(f) =>
      if !g.loopRunning {
        ResetKeepsInv(g.difficulty, g.store, f, g.loopRunning);
      }
    case _ =>
  }

  /** The state after the inputs evs, one after another. */
  function Run(g: GameState, evs: seq<Event>): (r: GameState)
    requires Inv(g)
    ensures Inv(r)
    decreases |evs|
  {
    if evs == [] then g
    else
      ApplyKeepsInv(g, evs[0]);
      Run(Apply(g, evs[0]), evs[1..])
  }

  /** The state the constructor leaves: init with no timer yet. */
  function Constructed(d: Difficulty, store: map<string, int>, food: Tile): GameState {
    Reset(d, store, food, false)
  }

  /**
   * Every state reachable from construction keeps the invariant: cells in
   * bounds, distinct and adjacent, and as many as maxCells.
   */
  lemma ReachableStatesAreValid(d: Difficulty, store: map<string, int>, food: Tile, evs: seq<Event>)
    ensures Inv(Constructed(d, store, food))
    ensures Inv(Run(Constructed(d, store, food), evs))
  {
  }

  predicate NoStart(evs: seq<Event>) {
    forall i :: 0 <= i < |evs| ==> !evs[i].StartPressed?
  }

  lemma NoStartTail(evs: seq<Event>)
    requires NoStart(evs) && evs != []
    ensures NoStart(evs[1..])
  {
    forall i | 0 <= i < |evs[1..]| ensures !evs[1..][i].StartPressed? {
      assert evs[1..][i] == evs[i + 1];
    }
  }

  /**
   * No input of evs, applied from g on, restarts the game: every start comes
   * while the loop is running, when it does nothing.
   */
  predicate Session(g: GameState, evs: seq<Event>)
    requires Inv(g)
    decreases |evs|
  {
    evs == [] ||
    ((evs[0].StartPressed? ==> g.loopRunning) &&
     (ApplyKeepsInv(g, evs[0]);
      Session(Apply(g, evs[0]), evs[1..])))
  }

  /**
   * One input: the high score never falls and the difficulty never changes;
   * anything but a start keeps the score from falling, and, once the game
   * is over, keeps cells, food and score as they are.
   */
  lemma StepMonotone(g: GameState, e: Event)
    requires Inv(g)
    ensures Apply(g, e).highScore >= g.highScore
    ensures Apply(g, e).difficulty == g.difficulty
    ensures !e.StartPressed? || g.loopRunning ==> Apply(g, e).score >= g.score
    ensures !e.StartPressed? && g.gameOver ==>
      var r := Apply(g, e);
      r.gameOver && !r.loopRunning && r.cells == g.cells && r.food == g.food && r.score == g.score
  {
    match e
    case TimerTick(f) =>
      if g.loopRunning && !g.gameOver && !g.paused && !Collides(g.cells, NextHead(g)) && NextHead(g) == g.food {
        assert Apply(g, e) == Advance(g, NextHead(g), f);
      }
    case _ =>
  }

  /**
   * Within a session (no start or restart that takes effect), the score
   * never decreases.
   */
  lemma {:induction false} ScoreNeverDecreases(g: GameState, evs: seq<Event>)
    requires Inv(g) && Session(g, evs)
    ensures Run(g, evs).score >= g.score
    decreases |evs|
  {
    if evs != [] {
      StepMonotone(g, evs[0]);
      ApplyKeepsInv(g, evs[0]);
      ScoreNeverDecreases(Apply(g, evs[0]), evs[1..]);
    }
  }

  /** Inputs with no start at all form a session. */
  lemma {:induction false} NoStartIsSession(g: GameState, evs: seq<Event>)
    requires Inv(g) && NoStart(evs)
    ensures Session(g, evs)
    decreases |evs|
  {
    if evs != [] {
      ApplyKeepsInv(g, evs[0]);
      NoStartTail(evs);
      NoStartIsSession(Apply(g, evs[0]), evs[1..]);
    }
  }

  /** The high score, and the stored entry with it, never decreases, restarts included. */
  lemma {:induction false} HighScoreNeverDecreases(g: GameState, evs: seq<Event>)
    requires Inv(g)
    ensures Run(g, evs).highScore >= g.highScore
    ensures StoredHighScore(Run(g, evs).store, g.difficulty) >= StoredHighScore(g.store, g.difficulty)
    ensures Run(g, evs).difficulty == g.difficulty
    decreases |evs|
  {
    if evs != [] {
      StepMonotone(g, evs[0]);
      ApplyKeepsInv(g, evs[0]);
      HighScoreNeverDecreases(Apply(g, evs[0]), evs[1..]);
    }
  }

  /**
   * Restarting after a game keeps the high score it reached: init reloads
   * it from the store.
   */
  lemma RestartKeepsHighScore(g: GameState, food: Tile)
    requires Inv(g) && !g.loopRunning
    ensures StartGame(g, food).highScore == g.highScore
    ensures StartGame(g, food).score == 0
  {
  }

  /**
   * Once the game is over, no input but a start or restart changes the
   * snake, the food or the score, and the game stays over.
   */
  lemma {:induction false} OverIsFinal(g: GameState, evs: seq<Event>)
    requires Inv(g) && g.gameOver && NoStart(evs)
    ensures Run(g, evs).gameOver && !Run(g, evs).loopRunning
    ensures Run(g, evs).cells == g.cells
    ensures Run(g, evs).food == g.food
    ensures Run(g, evs).score == g.score
    decreases |evs|
  {
    if evs != [] {
      StepMonotone(g, evs[0]);
      ApplyKeepsInv(g, evs[0]);
      NoStartTail(evs);
      OverIsFinal(Apply(g, evs[0]), evs[1..]);
    }
  }

  /** Pressing pause twice restores the state. */
  lemma TogglePauseTwice(g: GameState)
    ensures TogglePause(TogglePause(g)) == g
  {
  }

  /** A tick when halted, and a start while the loop runs, change nothing. */
  lemma HaltedInputsChangeNothing(g: GameState, f: Tile)
    requires |g.cells| > 0
    ensures g.gameOver || g.paused ==> Tick(g, f) == g
    ensures g.loopRunning ==> StartGame(g, f) == g
  {
  }
}
