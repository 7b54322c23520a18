// Traffic Racer: the player's car drives along the bottom of a 350 x 500
// road and steers left and right while oncoming cars, spawned at a fixed
// rate in one of three lanes, move down the screen. Touching one ends the
// run; every spawned car is worth one point. All quantities are integers.
module TrafficRacer {
  import opened Arcade

  const CanvasWidth: int := 350
  const CanvasHeight: int := 500
  const CarWidth: int := 40
  const CarHeight: int := 70
  const StartX: int := 175
  /** The player's car never changes its height on the road. */
  const PlayerY: int := 400
  /** Closest the steering lets the car get to either side of the canvas. */
  const Margin: int := 60
  /** The x positions of the three lanes new cars are spawned in. */
  const Lanes: seq<int> := [85, 175, 265]

  /** An oncoming car: its top-left corner and its size. */
  datatype Obstacle = Obstacle(x: int, y: int, width: int, height: int)

  /** The logical keys the key-down handler reacts to besides the held arrows. */
  datatype Key = Space | Escape | OtherKey

  /** Pixels an oncoming car moves down per frame. */
  function ObstacleSpeed(d: Difficulty): int
  {
    match d
    case Easy => 3
    case Medium => 5
    case Hard => 7
  }

  /** Milliseconds that must be exceeded between two spawns. */
  function SpawnInterval(d: Difficulty): int
  {
    match d
    case Easy => 1800
    case Medium => 1500
    case Hard => 1000
  }

  /** Pixels the player's car moves sideways per frame while an arrow is held. */
  function PlayerSpeed(d: Difficulty): int
  {
    match d
    case Easy => 4
    case Medium => 5
    case Hard => 6
  }

  /** Harder settings spawn more often and move faster. */
  lemma DifficultyOrdered()
    ensures ObstacleSpeed(Easy) < ObstacleSpeed(Medium) < ObstacleSpeed(Hard)
    ensures SpawnInterval(Easy) > SpawnInterval(Medium) > SpawnInterval(Hard)
    ensures PlayerSpeed(Easy) < PlayerSpeed(Medium) < PlayerSpeed(Hard)
  {
  }

  /** The player's x after one frame with the given arrows held: left applies
      only right of the margin, then right applies only left of the opposite
      margin, so holding both can apply both. The car never leaves the band
      within one step of the margins. */
  function Steer(x: int, speed: int, left: bool, right: bool): (r: int)
    requires speed > 0
    ensures Margin - speed < x < CanvasWidth - CarWidth - Margin + speed ==>
              Margin - speed < r < CanvasWidth - CarWidth - Margin + speed
    ensures !left && !right ==> r == x
    ensures r == x - speed || r == x || r == x + speed
    ensures left && !right ==> (r == x - speed <==> x > Margin)
    ensures right && !left ==> (r == x + speed <==> x < CanvasWidth - CarWidth - Margin)
    ensures left && right && Margin < x < CanvasWidth - CarWidth - Margin + speed ==> r == x
    ensures r < x ==> left && x > Margin
    ensures r > x ==> right
  {
    var afterLeft := if left && x > Margin then x - speed else x;
    if right && afterLeft < CanvasWidth - CarWidth - Margin then afterLeft + speed else afterLeft
  }

  /** The car spawned in lane `lane`, just above the top edge. */
  function SpawnCar(lane: nat): (o: Obstacle)
    requires lane < |Lanes|
    ensures o.x in Lanes && o.y + o.height == 0
    ensures WellFormed(o)
  {
    Obstacle(Lanes[lane], -70, CarWidth, CarHeight)
  }

  predicate WellFormed(o: Obstacle)
  {
    o.x in Lanes && o.width == CarWidth && o.height == CarHeight
  }

  /** The strict bounding-box test between the player's car at (px, PlayerY)
      and an obstacle. */
  predicate Collides(px: int, o: Obstacle)
  {
    && px < o.x + o.width
    && px + CarWidth > o.x
    && PlayerY < o.y + o.height
    && PlayerY + CarHeight > o.y
  }

  /** For an obstacle of positive size, a collision is exactly a common area
      of positive width and positive height. */
  lemma CollidesIffCommonArea(px: int, o: Obstacle)
    requires o.width > 0 && o.height > 0
    ensures Collides(px, o) <==>
              CommonLength(px as real, CarWidth as real, o.x as real, o.width as real) > 0.0
              && CommonLength(PlayerY as real, CarHeight as real, o.y as real, o.height as real) > 0.0
  {
    OverlapsIffPositiveCommon(px as real, CarWidth as real, o.x as real, o.width as real);
    OverlapsIffPositiveCommon(PlayerY as real, CarHeight as real, o.y as real, o.height as real);
  }

  /** An obstacle whose bottom edge is level with the top of the player's car
      does not collide with it, whatever the lanes. */
  lemma TouchingIsNoCrash(px: int, o: Obstacle)
    requires o.y + o.height == PlayerY
    ensures !Collides(px, o)
  {
  }

  function Advance(o: Obstacle, speed: int): Obstacle
  {
    o.(y := o.y + speed)
  }

  /** The obstacles after the first `n` of them have moved down by `speed`. */
  function AdvanceFirst(s: seq<Obstacle>, n: int, speed: int): (r: seq<Obstacle>)
    ensures |r| == |s|
  {
    seq(|s|, k requires 0 <= k < |s| => if k < n then Advance(s[k], speed) else s[k])
  }

  /** Index of the first obstacle at or after `i` that collides once moved
      down by `speed`, or None when none does. */
  function FirstCrashFrom(px: int, s: seq<Obstacle>, speed: int, i: nat): (r: Option<nat>)
    ensures r.Some? ==> i <= r.value < |s| && Collides(px, Advance(s[r.value], speed))
    ensures r.Some? ==> forall k :: i <= k < r.value ==> !Collides(px, Advance(s[k], speed))
    ensures r.None? ==> forall k :: i <= k < |s| ==> !Collides(px, Advance(s[k], speed))
    decreases |s| - i
  {
    if i >= |s| then None
    else if Collides(px, Advance(s[i], speed)) then Some(i)
    else FirstCrashFrom(px, s, speed, i + 1)
  }

  /** The obstacle's top edge is still above the bottom of the canvas. */
  predicate OnCanvas(o: Obstacle)
  {
    o.y < CanvasHeight
  }

  /** The obstacles still on the canvas, in their original order. */
  function Prune(s: seq<Obstacle>): (r: seq<Obstacle>)
    ensures |r| <= |s|
    ensures forall o :: o in r <==> o in s && o.y < CanvasHeight
  {
    Filter(s, OnCanvas)
  }

  /** Moving cars down keeps their lane and size. */
  lemma AdvanceShape(s: seq<Obstacle>, n: int, speed: int)
    requires forall k :: 0 <= k < |s| ==> WellFormed(s[k])
    ensures forall k :: 0 <= k < |s| ==> WellFormed(AdvanceFirst(s, n, speed)[k])
  {
  }

  lemma PruneShape(s: seq<Obstacle>)
    requires forall k :: 0 <= k < |s| ==> WellFormed(s[k])
    ensures forall k :: 0 <= k < |Prune(s)| ==> WellFormed(Prune(s)[k])
  {
    forall k | 0 <= k < |Prune(s)|
      ensures WellFormed(Prune(s)[k])
    {
      assert Prune(s)[k] in s;
    }
  }

  class Game {
    var score: nat
    var highScore: nat
    var gameStarted: bool
    var gameOver: bool
    var gamePaused: bool
    var difficulty: Difficulty
    var playerX: int
    var playerSpeed: int
    var obstacles: seq<Obstacle>
    var lastObstacleTime: int

    /** The object invariant: the car stays within one step of the margins,
        and every obstacle is a car-sized box in one of the lanes. */
    ghost predicate Valid()
      reads this
    {
      && playerSpeed > 0
      && Margin - playerSpeed < playerX < CanvasWidth - CarWidth - Margin + playerSpeed
      && forall k :: 0 <= k < |obstacles| ==> WellFormed(obstacles[k])
    }

    predicate Running()
      reads this
    {
      gameStarted && !gameOver && !gamePaused
    }

    /** The state right after a start at time `now` from a game with high
        score `high` at difficulty `diff`. */
    predicate JustStarted(high: nat, diff: Difficulty, now: int)
      reads this
    {
      && Running()
      && score == 0 && playerX == StartX && playerSpeed == PlayerSpeed(diff)
      && obstacles == [] && lastObstacleTime == now
      && highScore == high && difficulty == diff
    }

    /** The component as first shown, with the high score read from storage. */
    constructor (storedHighScore: nat)
      ensures Valid()
      ensures !gameStarted && !gameOver && !gamePaused && score == 0
      ensures highScore == storedHighScore && difficulty == Easy
      ensures playerX == StartX && playerSpeed == 5 && obstacles == [] && lastObstacleTime == 0
    {
      score := 0;
      highScore := storedHighScore;
      gameStarted, gameOver, gamePaused := false, false, false;
      difficulty := Easy;
      playerX, playerSpeed := StartX, 5;
      obstacles := [];
      lastObstacleTime := 0;
    }

    /** Starts a run at time `now`: the car back at its start with the
        difficulty's steering speed, no obstacles, score 0. */
    method StartGame(now: int)
      requires Valid()
      modifies this
      ensures Valid() && JustStarted(old(highScore), old(difficulty), now)
    {
      gameStarted, gameOver, score, gamePaused := true, false, 0, false;
      playerX := StartX;
      playerSpeed := PlayerSpeed(difficulty);
      obstacles := [];
      lastObstacleTime := now;
    }

    /** Ends the run; the high score is replaced when the score beats it. */
    method EndGame()
      requires Valid()
      modifies this`gameOver, this`highScore
      ensures Valid() && gameOver
      ensures highScore == RecordHighScore(old(highScore), score)
    {
      gameOver := true;
      highScore := RecordHighScore(highScore, score);
    }

    /** Pausing and resuming is possible only during a run that is not over. */
    method TogglePause()
      requires Valid()
      modifies this`gamePaused
      ensures Valid()
      ensures gamePaused == (if old(gameStarted) && !old(gameOver) then !old(gamePaused) else old(gamePaused))
    {
      if gameStarted && !gameOver {
        gamePaused := !gamePaused;
      }
    }

    /** The difficulty buttons are disabled while a run is in progress. */
    method SetDifficulty(d: Difficulty)
      requires Valid()
      modifies this`difficulty
      ensures Valid()
      ensures difficulty == if old(gameStarted) && !old(gameOver) then old(difficulty) else d
    {
      if !(gameStarted && !gameOver) {
        difficulty := d;
      }
    }

    /** A key press at time `now`: Space starts a game never started, Escape
        toggles the pause. */
    method HandleKeyDown(key: Key, now: int)
      requires Valid()
      modifies this
      ensures Valid()
      ensures key == Space && !old(gameStarted) ==> JustStarted(old(highScore), old(difficulty), now)
      ensures key == Escape ==> gamePaused == (if old(gameStarted) && !old(gameOver) then !old(gamePaused) else old(gamePaused))
      ensures key != Escape && !(key == Space && !old(gameStarted)) ==> gamePaused == old(gamePaused)
      ensures !(key == Space && !old(gameStarted)) ==>
                obstacles == old(obstacles) && score == old(score) && playerX == old(playerX)
                && gameOver == old(gameOver) && gameStarted == old(gameStarted)
                && highScore == old(highScore) && difficulty == old(difficulty)
                && playerSpeed == old(playerSpeed) && lastObstacleTime == old(lastObstacleTime)
    {
      if key == Space && !gameStarted {
        StartGame(now);
      } else if key == Escape {
        TogglePause();
      }
    }

    /** One animation frame of a running game at time `now`, with the arrows
        `left` and `right` held or not and `lane` the random lane index: steer;
        spawn a car in that lane if more than the spawn interval has passed
        (one point each); move every car down, stopping the run at the first
        one that hits the player; then drop the cars below the canvas. */
    method Frame(left: bool, right: bool, now: int, lane: nat)
      requires Valid() && Running()
      requires lane < |Lanes|
      modifies this
      ensures Valid()
      ensures gameStarted && !gamePaused && difficulty == old(difficulty) && playerSpeed == old(playerSpeed)
      ensures playerX == Steer(old(playerX), playerSpeed, left, right)
      ensures var spawn := now - old(lastObstacleTime) > SpawnInterval(difficulty);
              && score == old(score) + (if spawn then 1 else 0)
              && lastObstacleTime == (if spawn then now else old(lastObstacleTime))
      ensures var spawn := now - old(lastObstacleTime) > SpawnInterval(difficulty);
              var spawned := if spawn then old(obstacles) + [SpawnCar(lane)] else old(obstacles);
              var speed := ObstacleSpeed(difficulty);
              match FirstCrashFrom(playerX, spawned, speed, 0)
              case Some(i) =>
                gameOver && obstacles == AdvanceFirst(spawned, i + 1, speed)
                && highScore == RecordHighScore(old(highScore), score)
              case None =>
                !gameOver && obstacles == Prune(AdvanceFirst(spawned, |spawned|, speed))
                && highScore == old(highScore)
    {
      SteerPlayer(left, right);
      SpawnIfDue(now, lane);
      MoveObstacles();
    }

    /** Sideways movement for the held arrows. */
    method SteerPlayer(left: bool, right: bool)
      requires Valid()
      modifies this`playerX
      ensures Valid() && playerX == Steer(old(playerX), playerSpeed, left, right)
    {
      if left && playerX > Margin {
        playerX := playerX - playerSpeed;
      }
      if right && playerX < CanvasWidth - CarWidth - Margin {
        playerX := playerX + playerSpeed;
      }
    }

    /** The timed spawn: strictly more than the interval since the last spawn
        appends one car in `lane`, restarts the timer and scores one point. */
    method SpawnIfDue(now: int, lane: nat)
      requires Valid() && lane < |Lanes|
      modifies this`obstacles, this`lastObstacleTime, this`score
      ensures Valid()
      ensures var spawn := now - old(lastObstacleTime) > SpawnInterval(difficulty);
              && obstacles == (if spawn then old(obstacles) + [SpawnCar(lane)] else old(obstacles))
              && score == old(score) + (if spawn then 1 else 0)
              && lastObstacleTime == (if spawn then now else old(lastObstacleTime))
    {
      if now - lastObstacleTime > SpawnInterval(difficulty) {
        obstacles := obstacles + [SpawnCar(lane)];
        lastObstacleTime := now;
        score := score + 1;
      }
    }

    /** Moves every car down in order; the first one that then hits the player
        ends the run and leaves the later ones unmoved; otherwise the cars
        below the canvas are dropped. */
    method MoveObstacles()
      requires Valid() && Running()
      modifies this`obstacles, this`gameOver, this`highScore
      ensures Valid() && gameStarted && !gamePaused
      ensures var speed := ObstacleSpeed(difficulty);
              match FirstCrashFrom(playerX, old(obstacles), speed, 0)
              case Some(i) =>
                gameOver && obstacles == AdvanceFirst(old(obstacles), i + 1, speed)
                && highScore == RecordHighScore(old(highScore), score)
              case None =>
                !gameOver && obstacles == Prune(AdvanceFirst(old(obstacles), |old(obstacles)|, speed))
                && highScore == old(highScore)
    {
      var speed := ObstacleSpeed(difficulty);
      var crashAt := ScanObstacles(speed);
      match crashAt
      case Some(i) =>
        AdvanceShape(old(obstacles), i + 1, speed);
        EndGame();
      case None =>
        AdvanceShape(old(obstacles), |old(obstacles)|, speed);
        PruneShape(obstacles);
        obstacles := Prune(obstacles);
    }

    /** The pass over the cars: each moves down in turn, and the pass stops
        after the first one that then hits the player. */
    method ScanObstacles(speed: int) returns (crashAt: Option<nat>)
      modifies this`obstacles
      ensures crashAt == FirstCrashFrom(playerX, old(obstacles), speed, 0)
      ensures match crashAt
              case Some(i) => obstacles == AdvanceFirst(old(obstacles), i + 1, speed)
              case None => obstacles == AdvanceFirst(old(obstacles), |old(obstacles)|, speed)
    {
      var i := 0;
      while i < |obstacles|
        invariant 0 <= i <= |obstacles| == |old(obstacles)|
        invariant obstacles == AdvanceFirst(old(obstacles), i, speed)
        invariant FirstCrashFrom(playerX, old(obstacles), speed, 0) == FirstCrashFrom(playerX, old(obstacles), speed, i)
      {
        obstacles := obstacles[i := Advance(obstacles[i], speed)];
        assert obstacles == AdvanceFirst(old(obstacles), i + 1, speed);
        if Collides(playerX, obstacles[i]) {
          return Some(i);
        }
        i := i + 1;
      }
      return None;
    }
  }
}
