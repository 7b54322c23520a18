// The Snake game: a snake of grid cells moves one cell per tick in its
// current direction, dies on the wall or on its own body, and grows by one
// cell for each piece of food it eats. Coordinates are pixels; every cell
// lies on a multiple of the 20-pixel grid of a 340 x 340 board.
module Snake {
  import opened Arcade

  const Width: int := 340
  const Height: int := 340
  const GridSize: int := 20
  /** Number of grid columns and rows (the board divides evenly). */
  const Cols: int := Width / GridSize
  const Rows: int := Height / GridSize

  datatype Direction = Up | Down | Left | Right

  datatype Cell = Cell(x: int, y: int)

  /** The logical keys the keyboard handler reacts to. */
  datatype Key = Space | Escape | Arrow(dir: Direction) | OtherKey

  /** One random draw of the food placement loop: a column in [0, Cols) and a
      row in [0, Rows), each the floor of a uniform draw scaled by the count. */
  datatype Draw = Draw(col: int, row: int)

  function Opposite(d: Direction): Direction
  {
    match d
    case Up => Down
    case Down => Up
    case Left => Right
    case Right => Left
  }

  /** Milliseconds between two moves for each difficulty setting. */
  function TickInterval(d: Difficulty): nat
  {
    match d
    case Easy => 150
    case Medium => 100
    case Hard => 70
  }

  /** Harder settings move the snake more often. */
  lemma HarderIsFaster()
    ensures TickInterval(Easy) > TickInterval(Medium) > TickInterval(Hard) > 0
  {
  }

  function Abs(n: int): nat
  {
    if n < 0 then -n else n
  }

  /** The cell one grid step away from `c` in direction `d`: up and left
      decrease a coordinate, down and right increase one, and the two cells
      are exactly one grid size apart. */
  function Move(c: Cell, d: Direction): (r: Cell)
    ensures d == Up <==> r.y < c.y
    ensures d == Down <==> r.y > c.y
    ensures d == Left <==> r.x < c.x
    ensures d == Right <==> r.x > c.x
    ensures Abs(r.x - c.x) + Abs(r.y - c.y) == GridSize
  {
    match d
    case Up => c.(y := c.y - GridSize)
    case Down => c.(y := c.y + GridSize)
    case Left => c.(x := c.x - GridSize)
    case Right => c.(x := c.x + GridSize)
  }

  predicate Adjacent(a: Cell, b: Cell)
  {
    a == Move(b, Up) || a == Move(b, Down) || a == Move(b, Left) || a == Move(b, Right)
  }

  /** Inside the board: the negation of the wall test. */
  predicate InBounds(c: Cell)
  {
    0 <= c.x < Width && 0 <= c.y < Height
  }

  predicate OnGrid(c: Cell)
  {
    InBounds(c) && c.x % GridSize == 0 && c.y % GridSize == 0
  }

  predicate AllOnGrid(s: seq<Cell>)
  {
    forall k :: 0 <= k < |s| ==> OnGrid(s[k])
  }

  /** Every segment is one grid step from the next one. */
  predicate Contiguous(s: seq<Cell>)
  {
    forall k :: 0 <= k < |s| - 1 ==> Adjacent(s[k], s[k + 1])
  }

  /** A move reaches a neighbouring cell, and the opposite move undoes it. */
  lemma MoveIsOneStep(c: Cell, d: Direction)
    ensures Adjacent(Move(c, d), c)
    ensures Move(Move(c, d), Opposite(d)) == c
  {
  }

  /** A move from a grid cell that stays inside the board lands on a grid cell. */
  lemma MoveKeepsGrid(c: Cell, d: Direction)
    requires OnGrid(c) && InBounds(Move(c, d))
    ensures OnGrid(Move(c, d))
  {
  }

  /** Only the opposite move leads back to the cell just left. */
  lemma BackOnlyByOpposite(c: Cell, d: Direction, e: Direction)
    ensures Move(Move(c, d), e) == c <==> e == Opposite(d)
  {
  }

  /** The direction buffered for the next tick after a request for `requested`
      while travelling in `current` with `pending` already buffered: each
      arrow is refused when it points back against the current travel. */
  function Steer(current: Direction, pending: Direction, requested: Direction): (r: Direction)
    ensures r == (if requested == Opposite(current) then pending else requested)
  {
    match requested
    case Up => if current != Down then Up else pending
    case Down => if current != Up then Down else pending
    case Left => if current != Right then Left else pending
    case Right => if current != Left then Right else pending
  }

  /** A buffered direction that does not reverse the travel never becomes one
      that does, whatever is requested. */
  lemma SteerNeverReverses(current: Direction, pending: Direction, requested: Direction)
    requires pending != Opposite(current)
    ensures Steer(current, pending, requested) != Opposite(current)
  {
  }

  /** With the head one step ahead of the neck in the direction of travel, a
      direction that is not a reversal never moves the head onto the neck. */
  lemma NoTurnIntoNeck(body: seq<Cell>, current: Direction, next: Direction)
    requires |body| >= 2 && body[0] == Move(body[1], current)
    requires next != Opposite(current)
    ensures Move(body[0], next) != body[1]
  {
    BackOnlyByOpposite(body[1], current, next);
  }

  predicate ValidDraw(d: Draw)
  {
    0 <= d.col < Cols && 0 <= d.row < Rows
  }

  predicate ValidDraws(draws: seq<Draw>)
  {
    forall k :: 0 <= k < |draws| ==> ValidDraw(draws[k])
  }

  /** The pixel cell a draw selects. */
  function CellOf(d: Draw): Cell
  {
    Cell(d.col * GridSize, d.row * GridSize)
  }

  /** Some draw of the stream lands on a cell outside `body`: exactly when the
      retry loop stops within the stream. */
  predicate HitsFree(body: seq<Cell>, draws: seq<Draw>)
  {
    exists k :: 0 <= k < |draws| && CellOf(draws[k]) !in body
  }

  /** The cell the retry loop settles on: the first drawn cell not in `body`,
      or None when every draw of the stream is occupied. */
  function FoodFrom(body: seq<Cell>, draws: seq<Draw>): (r: Option<Cell>)
    requires ValidDraws(draws)
    ensures r.Some? <==> HitsFree(body, draws)
    ensures r.Some? ==> r.value !in body && OnGrid(r.value)
    ensures r.Some? ==> exists k :: (0 <= k < |draws| && r.value == CellOf(draws[k])
      && forall j :: 0 <= j < k ==> CellOf(draws[j]) in body)
  {
    if draws == [] then None
    else if CellOf(draws[0]) !in body then Some(CellOf(draws[0]))
    else
      var r := FoodFrom(body, draws[1..]);
      assert HitsFree(body, draws[1..]) <==> HitsFree(body, draws) by {
        if HitsFree(body, draws) {
          var k :| 0 <= k < |draws| && CellOf(draws[k]) !in body;
          assert CellOf(draws[1..][k - 1]) !in body;
        }
      }
      if r.Some? then
        assert exists k :: (0 <= k < |draws| && r.value == CellOf(draws[k])
            && forall j :: 0 <= j < k ==> CellOf(draws[j]) in body) by {
          var k :| 0 <= k < |draws[1..]| && r.value == CellOf(draws[1..][k])
            && forall j :: 0 <= j < k ==> CellOf(draws[1..][j]) in body;
          assert forall j :: 1 <= j < k + 1 ==> draws[j] == draws[1..][j - 1];
        }
        r
      else r
  }

  /** The placement loop: draw a grid cell, and draw again while the cell is
      occupied by the snake. It stops on the first free cell of the stream. */
  method DrawFood(body: seq<Cell>, draws: seq<Draw>) returns (food: Cell)
    requires ValidDraws(draws) && HitsFree(body, draws)
    ensures food !in body && OnGrid(food)
    ensures FoodFrom(body, draws) == Some(food)
  {
    var i := 0;
    food := CellOf(draws[0]);
    while food in body
      invariant 0 <= i < |draws|
      invariant food == CellOf(draws[i])
      invariant forall j :: 0 <= j < i ==> CellOf(draws[j]) in body
      invariant FoodFrom(body, draws) == FoodFrom(body, draws[i..])
      decreases |draws| - i
    {
      ghost var k :| 0 <= k < |draws| && CellOf(draws[k]) !in body;
      assert k > i;
      assert draws[i..][1..] == draws[i + 1..];
      i := i + 1;
      food := CellOf(draws[i]);
    }
  }

  /** Where the food goes after the head eats it at `head`, when the loop
      avoids the snake as it will be after the move. */
  function FoodAfterMeal(head: Cell, body: seq<Cell>, draws: seq<Draw>): (r: Option<Cell>)
    requires ValidDraws(draws)
    ensures r.Some? ==> r.value != head && r.value !in body && OnGrid(r.value)
  {
    FoodFrom([head] + body, draws)
  }

  /** Where the food goes after a meal as the game loop is written: the loop
      reads the snake before the new head is stored, so only the pre-move body
      is avoided. */
  function FoodAfterMealAsWritten(head: Cell, body: seq<Cell>, draws: seq<Draw>): (r: Option<Cell>)
    requires ValidDraws(draws)
    ensures r.Some? ==> r.value !in body && OnGrid(r.value)
    ensures FoodAfterMeal(head, body, draws).Some? ==> r.Some?
  {
    assert HitsFree([head] + body, draws) ==> HitsFree(body, draws) by {
      if HitsFree([head] + body, draws) {
        var k :| 0 <= k < |draws| && CellOf(draws[k]) !in [head] + body;
        assert CellOf(draws[k]) !in body;
      }
    }
    FoodFrom(body, draws)
  }

  /** The starting snake moving right, its head at (180, 160) eats the food
      there; a draw of that very cell passes the as-written check, so the new
      food lies under the head. The corrected placement refuses that draw. */
  lemma AsWrittenFoodCanCoverHead()
    ensures var body := [Cell(160, 160), Cell(140, 160), Cell(120, 160)];
      var head := Move(body[0], Right);
      FoodAfterMealAsWritten(head, body, [Draw(9, 8)]) == Some(head)
      && FoodAfterMeal(head, body, [Draw(9, 8)]) == None
  {
    var body := [Cell(160, 160), Cell(140, 160), Cell(120, 160)];
    assert CellOf(Draw(9, 8)) == Cell(180, 160);
    assert CellOf(Draw(9, 8)) !in body;
    assert CellOf(Draw(9, 8)) in [Cell(180, 160)] + body;
  }

  /** In the game loop the head is compared with every segment after the
      first, the tail included: a square snake whose head turns onto the tail
      dies, although the tail would have moved away in the same tick. */
  lemma ChasingTailIsFatal()
    ensures var body := [Cell(20, 0), Cell(20, 20), Cell(0, 20), Cell(0, 0)];
      Contiguous(body) && Move(body[0], Left) == body[3] && Move(body[0], Left) in body[1..]
  {
    var body := [Cell(20, 0), Cell(20, 20), Cell(0, 20), Cell(0, 0)];
    assert Adjacent(body[0], body[1]) && Adjacent(body[1], body[2]) && Adjacent(body[2], body[3]);
    assert body[1..][2] == body[3];
  }

  /** The starting snake: three cells in a row, the head at the grid-aligned
      centre of the board, the body trailing to the left. */
  function StartSnake(): (s: seq<Cell>)
    ensures |s| == 3 && AllOnGrid(s) && Contiguous(s)
    ensures s[0] == Cell(Cols / 2 * GridSize, Rows / 2 * GridSize)
    ensures forall k :: 0 <= k < 2 ==> s[k] == Move(s[k + 1], Right)
  {
    var cx := Cols / 2 * GridSize;
    var cy := Rows / 2 * GridSize;
    [Cell(cx, cy), Cell(cx - GridSize, cy), Cell(cx - 2 * GridSize, cy)]
  }

  class SnakeGame {
    var score: nat
    var highScore: nat
    var gameStarted: bool
    var gameOver: bool
    var gamePaused: bool
    var difficulty: Difficulty
    var snake: seq<Cell>
    var food: Cell
    var direction: Direction
    var nextDirection: Direction
    var lastMoveTime: int
    /** Whether the loop has been armed since the run started, so that the
        food has left the (0, 0) "not placed" mark of the start. */
    ghost var foodPlaced: bool

    /** The object invariant: the buffered direction never reverses the
        current one; once a run has started, the snake is on the board, in one
        piece, three cells longer than the score, and off the food; while the
        run goes on, the head is one step ahead of the neck. */
    ghost predicate Valid()
      reads this
    {
      && BodyValid()
      && (gameStarted && !gameOver ==> snake[0] == Move(snake[1], direction))
    }

    /** The part of the invariant that also holds in the frame that ends a run. */
    ghost predicate BodyValid()
      reads this
    {
      && nextDirection != Opposite(direction)
      && (gameStarted ==>
            && |snake| == score + 3
            && AllOnGrid(snake)
            && Contiguous(snake)
            && OnGrid(food)
            && food !in snake)
    }

    predicate Running()
      reads this
    {
      gameStarted && !gameOver && !gamePaused
    }

    /** The state right after a start from a game with high score `high` at
        difficulty `diff`. */
    ghost predicate JustStarted(high: nat, diff: Difficulty)
      reads this
    {
      && Running()
      && snake == StartSnake() && score == 0
      && direction == Right && nextDirection == Right
      && food == Cell(0, 0) && !foodPlaced && lastMoveTime == 0
      && highScore == high && difficulty == diff
    }

    /** The component as first shown, with the high score read from storage
        (0 when nothing is stored). */
    constructor (storedHighScore: nat)
      ensures Valid()
      ensures !gameStarted && !gameOver && !gamePaused && score == 0
      ensures highScore == storedHighScore && difficulty == Easy
      ensures snake == [] && food == Cell(0, 0) && !foodPlaced
      ensures direction == Right && nextDirection == Right && lastMoveTime == 0
    {
      score := 0;
      highScore := storedHighScore;
      gameStarted, gameOver, gamePaused := false, false, false;
      difficulty := Easy;
      snake := [];
      food := Cell(0, 0);
      direction, nextDirection := Right, Right;
      lastMoveTime := 0;
      foodPlaced := false;
    }

    /** Starts a run: the starting snake, heading right, score 0, and the food
        reset to the (0, 0) mark meaning "not placed yet". */
    method StartGame()
      requires Valid()
      modifies this
      ensures Valid() && JustStarted(old(highScore), old(difficulty))
    {
      snake := StartSnake();
      gameStarted, gameOver, score, gamePaused := true, false, 0, false;
      direction, nextDirection := Right, Right;
      food := Cell(0, 0);
      lastMoveTime := 0;
      foodPlaced := false;
    }

    /** Ends the run; the high score is replaced when the score beats it. */
    method EndGame()
      requires BodyValid() && gameStarted
      modifies this`gameOver, this`highScore
      ensures Valid() && gameOver
      ensures highScore == RecordHighScore(old(highScore), score)
    {
      gameOver := true;
      highScore := RecordHighScore(highScore, score);
    }

    /** Pausing and resuming is possible only during a run that is not over. */
    method TogglePause()
      requires Valid()
      modifies this`gamePaused
      ensures Valid()
      ensures gamePaused == (if old(gameStarted) && !old(gameOver) then !old(gamePaused) else old(gamePaused))
    {
      if gameStarted && !gameOver {
        gamePaused := !gamePaused;
      }
    }

    /** The difficulty buttons are disabled while a run is in progress. */
    method SetDifficulty(d: Difficulty)
      requires Valid()
      modifies this`difficulty
      ensures Valid()
      ensures difficulty == if old(gameStarted) && !old(gameOver) then old(difficulty) else d
    {
      if !(gameStarted && !gameOver) {
        difficulty := d;
      }
    }

    /** A key press: Space starts a game not yet started, Escape toggles the
        pause, and an arrow during a running game requests a turn. */
    method HandleKeyDown(key: Key)
      requires Valid()
      modifies this
      ensures Valid()
      ensures key == Space && !old(gameStarted) ==> JustStarted(old(highScore), old(difficulty))
      ensures key == Escape ==> gamePaused == (if old(gameStarted) && !old(gameOver) then !old(gamePaused) else old(gamePaused))
      ensures key.Arrow? && old(Running()) ==> nextDirection == Steer(old(direction), old(nextDirection), key.dir)
      ensures !(key.Arrow? && old(Running())) && !(key == Space && !old(gameStarted)) ==>
                nextDirection == old(nextDirection)
      ensures key != Escape && !(key == Space && !old(gameStarted)) ==> gamePaused == old(gamePaused)
      ensures !(key == Space && !old(gameStarted)) ==>
                snake == old(snake) && direction == old(direction) && food == old(food)
                && score == old(score) && highScore == old(highScore) && difficulty == old(difficulty)
                && gameStarted == old(gameStarted) && gameOver == old(gameOver)
                && lastMoveTime == old(lastMoveTime) && foodPlaced == old(foodPlaced)
    {
      if key == Space && !gameStarted {
        StartGame();
        return;
      }
      if key == Escape {
        TogglePause();
        return;
      }
      if gameStarted && !gamePaused && !gameOver && key.Arrow? {
        nextDirection := Steer(direction, nextDirection, key.dir);
      }
    }

    /** An on-screen arrow: starts a game not yet started; otherwise, unless
        paused or over, requests a turn. */
    method HandleSwipe(dir: Direction)
      requires Valid()
      modifies this
      ensures Valid()
      ensures !old(gameStarted) ==> JustStarted(old(highScore), old(difficulty))
      ensures old(gameStarted) && (old(gamePaused) || old(gameOver)) ==> nextDirection == old(nextDirection)
      ensures old(Running()) ==> nextDirection == Steer(old(direction), old(nextDirection), dir)
      ensures old(gameStarted) ==>
                snake == old(snake) && direction == old(direction) && food == old(food)
                && score == old(score) && highScore == old(highScore) && difficulty == old(difficulty)
                && gameStarted == old(gameStarted) && gameOver == old(gameOver)
                && gamePaused == old(gamePaused) && lastMoveTime == old(lastMoveTime)
                && foodPlaced == old(foodPlaced)
    {
      if !gameStarted {
        StartGame();
        return;
      }
      if gamePaused || gameOver {
        return;
      }
      nextDirection := Steer(direction, nextDirection, dir);
    }

    /** What happens when the loop is armed, before the first frame of a run
        and on every resume: food still at the "not placed" mark is placed.
        `Tick` requires that this has happened since the start. */
    method ArmLoop(draws: seq<Draw>)
      requires Valid() && Running()
      requires food == Cell(0, 0) ==> ValidDraws(draws) && HitsFree(snake, draws)
      modifies this`food, this`foodPlaced
      ensures Valid() && foodPlaced
      ensures old(food) == Cell(0, 0) ==> FoodFrom(snake, draws) == Some(food)
      ensures old(food) != Cell(0, 0) ==> food == old(food)
    {
      if food.x == 0 && food.y == 0 {
        food := DrawFood(snake, draws);
      }
      foodPlaced := true;
    }

    /** One animation frame of a running game at time `timestamp`. Too soon
        after the last move nothing happens. Otherwise the buffered direction
        becomes current and the head moves one cell; a head off the board or
        on any segment after the first ends the run with the snake as it was;
        else the head is prepended, and the tail is dropped unless the head is
        on the food, in which case the score rises by one and the food is
        placed again from `draws`. */
    method Tick(timestamp: int, draws: seq<Draw>)
      requires Valid() && Running() && foodPlaced
      requires Move(snake[0], nextDirection) == food ==>
                 ValidDraws(draws) && HitsFree([food] + snake, draws)
      modifies this`lastMoveTime, this`direction, this`snake, this`score, this`food
      modifies this`gameOver, this`highScore
      ensures Valid()
      ensures difficulty == old(difficulty) && gameStarted && !gamePaused
      ensures timestamp - old(lastMoveTime) < TickInterval(difficulty) ==>
                snake == old(snake) && food == old(food) && score == old(score) && !gameOver
                && direction == old(direction) && nextDirection == old(nextDirection)
                && lastMoveTime == old(lastMoveTime) && highScore == old(highScore)
      ensures timestamp - old(lastMoveTime) >= TickInterval(difficulty) ==>
                lastMoveTime == timestamp && direction == old(nextDirection)
                && nextDirection == old(nextDirection)
      ensures timestamp - old(lastMoveTime) >= TickInterval(difficulty) ==>
                var head := Move(old(snake)[0], old(nextDirection));
                if !InBounds(head) || head in old(snake)[1..] then
                  gameOver && snake == old(snake) && food == old(food) && score == old(score)
                  && highScore == RecordHighScore(old(highScore), old(score))
                else if head == old(food) then
                  !gameOver && snake == [head] + old(snake) && score == old(score) + 1
                  && Some(food) == FoodAfterMeal(head, old(snake), draws)
                  && highScore == old(highScore)
                else
                  !gameOver && snake == [head] + old(snake)[..|old(snake)| - 1]
                  && score == old(score) && food == old(food) && highScore == old(highScore)
    {
      if timestamp - lastMoveTime < TickInterval(difficulty) {
        return;
      }
      lastMoveTime := timestamp;
      direction := nextDirection;
      var head := Move(snake[0], direction);
      if head.x < 0 || head.x >= Width || head.y < 0 || head.y >= Height {
        EndGame();
        return;
      }
      if head in snake[1..] {
        EndGame();
        return;
      }
      Slither(head, draws);
    }

    /** The move that does not end the run: the head is prepended; on the food
        the snake keeps its tail, the score rises and the food is placed again,
        otherwise the tail is dropped. */
    method Slither(head: Cell, draws: seq<Draw>)
      requires BodyValid() && gameStarted && !gameOver
      requires head == Move(snake[0], direction) && InBounds(head) && head !in snake[1..]
      requires head == food ==> ValidDraws(draws) && HitsFree([food] + snake, draws)
      modifies this`snake, this`score, this`food
      ensures Valid()
      ensures head == old(food) ==>
                snake == [head] + old(snake) && score == old(score) + 1
                && Some(food) == FoodAfterMeal(head, old(snake), draws)
      ensures head != old(food) ==>
                snake == [head] + old(snake)[..|old(snake)| - 1]
                && score == old(score) && food == old(food)
    {
      MoveIsOneStep(snake[0], direction);
      MoveKeepsGrid(snake[0], direction);
      var grown := [head] + snake;
      assert AllOnGrid(grown) by {
        forall k | 0 <= k < |grown|
          ensures OnGrid(grown[k])
        {
          if k > 0 { assert grown[k] == snake[k - 1]; }
        }
      }
      assert Contiguous(grown) by {
        forall k | 0 <= k < |grown| - 1
          ensures Adjacent(grown[k], grown[k + 1])
        {
          if k > 0 { assert grown[k] == snake[k - 1] && grown[k + 1] == snake[k]; }
        }
      }
      if head == food {
        score := score + 1;
        food := DrawFood(grown, draws);
        snake := grown;
      } else {
        snake := grown[..|grown| - 1];
        assert snake[1..] == old(snake)[..|old(snake)| - 1];
      }
    }
  }
}
