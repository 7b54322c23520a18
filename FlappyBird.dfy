// Flappy Bird: a bird at a fixed column of a 350 x 500 canvas falls under
// gravity and jumps on demand while pairs of pipes with a gap between them
// scroll in from the right. Touching a pipe, the ground or the ceiling ends
// the run; each pipe the bird gets past is worth one point. Positions and
// velocities are exact reals (the game's constants include 0.4 and 1.5).
module FlappyBird {
  import opened Arcade

  const CanvasWidth: int := 350
  const CanvasHeight: int := 500
  /** The bird's fixed column and its size. */
  const BirdX: int := 50
  const BirdWidth: int := 30
  const BirdHeight: int := 20
  const StartY: real := 150.0
  const PipeWidth: int := 50
  /** Least height of the top segment; the bottom one gets at least one more. */
  const MinSegment: int := 40

  /** A pair of pipes: the top one spans [0, topHeight), the bottom one
      starts at bottomY. `counted` records that it has scored. */
  datatype Pipe = Pipe(x: real, topHeight: int, bottomY: int, width: int, counted: bool)

  /** The logical keys the key-down handler reacts to. */
  datatype Key = Space | Escape | OtherKey

  /** Pixels a pipe moves left per frame. */
  function PipeSpeed(d: Difficulty): real
  {
    match d
    case Easy => 1.5
    case Medium => 2.0
    case Hard => 3.0
  }

  /** Milliseconds that must be exceeded between two spawns. */
  function PipeInterval(d: Difficulty): int
  {
    match d
    case Easy => 2500
    case Medium => 2000
    case Hard => 1500
  }

  /** Height of the gap between the two pipes of a pair. */
  function GapHeight(d: Difficulty): int
  {
    match d
    case Easy => 200
    case Medium => 180
    case Hard => 150
  }

  /** Added to the bird's velocity every frame. */
  function Gravity(d: Difficulty): real
  {
    match d
    case Easy => 0.4
    case Medium => 0.5
    case Hard => 0.6
  }

  /** The velocity a jump sets (negative is upwards). */
  function JumpStrength(d: Difficulty): real
  {
    match d
    case Easy => -8.0
    case Medium => -10.0
    case Hard => -10.0
  }

  /** Harder settings move pipes faster, spawn them more often, narrow the
      gap and pull harder. */
  lemma DifficultyOrdered()
    ensures PipeSpeed(Easy) < PipeSpeed(Medium) < PipeSpeed(Hard)
    ensures PipeInterval(Easy) > PipeInterval(Medium) > PipeInterval(Hard)
    ensures GapHeight(Easy) > GapHeight(Medium) > GapHeight(Hard)
    ensures Gravity(Easy) < Gravity(Medium) < Gravity(Hard)
  {
  }

  /** Height and velocity after `n` frames without a jump: each frame adds
      gravity to the velocity and then the velocity to the height. */
  function FallFor(y: real, v: real, g: real, n: nat): (real, real)
  {
    if n == 0 then (y, v)
    else
      var (y', v') := FallFor(y, v, g, n - 1);
      (y' + (v' + g), v' + g)
  }

  /** The triangular number 1 + 2 + ... + n. */
  function Triangle(n: nat): nat
  {
    if n == 0 then 0 else Triangle(n - 1) + n
  }

  lemma {:induction false} TriangleClosedForm(n: nat)
    ensures 2 * Triangle(n) == n * (n + 1)
  {
    if n > 0 {
      TriangleClosedForm(n - 1);
    }
  }

  /** Closed form of the fall: after n frames the velocity has grown by n
      times gravity and the height by n times the starting velocity plus
      gravity times the triangular number n(n+1)/2. */
  lemma {:induction false} FallClosedForm(y: real, v: real, g: real, n: nat)
    ensures FallFor(y, v, g, n).1 == v + (n as real) * g
    ensures FallFor(y, v, g, n).0 == y + (n as real) * v + g * (Triangle(n) as real)
  {
    if n > 0 {
      FallClosedForm(y, v, g, n - 1);
      var m := n - 1;
      assert (n as real) * v == (m as real) * v + v;
      assert (n as real) * g == (m as real) * g + g;
      assert g * (Triangle(n) as real) == g * (Triangle(m) as real) + (n as real) * g;
    }
  }

  /** The pipe pair spawned at the right edge for a gap draw `draw` in
      [0, CanvasHeight - gap - 80): both pipes keep at least MinSegment
      pixels on screen. */
  function SpawnPipe(draw: int, gap: int): (p: Pipe)
    requires gap > 0 && 0 <= draw < CanvasHeight - gap - 2 * MinSegment
    ensures p.x == CanvasWidth as real && !p.counted && p.width == PipeWidth
    ensures p.bottomY - p.topHeight == gap
    ensures MinSegment <= p.topHeight && CanvasHeight - p.bottomY > MinSegment
  {
    var top := draw + MinSegment;
    Pipe(CanvasWidth as real, top, top + gap, PipeWidth, false)
  }

  /** The bird at height y touches the pipe pair: the horizontal extents
      overlap strictly and the bird is not within the gap. */
  predicate HitsPipe(y: real, p: Pipe)
  {
    && (BirdX + BirdWidth) as real > p.x
    && (BirdX as real) < p.x + p.width as real
    && (y < p.topHeight as real || y + BirdHeight as real > p.bottomY as real)
  }

  /** For a bird on screen, the gap test is the strict bounding-box test
      against the two pipe rectangles, [0, topHeight) and [bottomY, height). */
  lemma HitsPipeIffBoxOverlap(y: real, p: Pipe)
    requires 0.0 < y + BirdHeight as real && y < CanvasHeight as real
    requires 0 < p.topHeight && p.bottomY < CanvasHeight && p.width > 0
    ensures HitsPipe(y, p) <==>
              Overlaps(BirdX as real, BirdWidth as real, p.x, p.width as real)
              && (Overlaps(y, BirdHeight as real, 0.0, p.topHeight as real)
                  || Overlaps(y, BirdHeight as real, p.bottomY as real, (CanvasHeight - p.bottomY) as real))
  {
  }

  /** A bird within the gap is safe; one whose top is inside the top pipe is not. */
  lemma GapExamples(x: real)
    requires x < (BirdX + BirdWidth) as real && (BirdX as real) < x + 50.0
    ensures !HitsPipe(150.0, Pipe(x, 100, 280, 50, false))
    ensures HitsPipe(90.0, Pipe(x, 100, 280, 50, false))
  {
  }

  function MovePipe(p: Pipe, speed: real): Pipe
  {
    p.(x := p.x - speed)
  }

  /** The pipe scores now: not counted yet and the bird is past its right edge. */
  predicate NewlyPassed(p: Pipe)
  {
    !p.counted && BirdX as real > p.x + p.width as real
  }

  function ScorePipe(p: Pipe): Pipe
  {
    if NewlyPassed(p) then p.(counted := true) else p
  }

  /** The pipes after the first `n` have moved and been scored. */
  function PassFirst(s: seq<Pipe>, n: int, speed: real): (r: seq<Pipe>)
    ensures |r| == |s|
  {
    seq(|s|, k requires 0 <= k < |s| => if k < n then ScorePipe(MovePipe(s[k], speed)) else s[k])
  }

  lemma PassFirstStep(s: seq<Pipe>, i: nat, speed: real)
    requires i < |s|
    ensures PassFirst(s, i + 1, speed) == PassFirst(s, i, speed)[i := ScorePipe(MovePipe(s[i], speed))]
  {
  }

  /** Points scored by the first `n` pipes in one pass. */
  function Gained(s: seq<Pipe>, n: nat, speed: real): (r: nat)
    requires n <= |s|
    ensures r <= n
  {
    if n == 0 then 0
    else Gained(s, n - 1, speed) + (if NewlyPassed(MovePipe(s[n - 1], speed)) then 1 else 0)
  }

  /** How many of the first `n` pipes are counted in `after` but were not in
      `before`. */
  function Flips(before: seq<Pipe>, after: seq<Pipe>, n: nat): nat
    requires n <= |before| == |after|
  {
    if n == 0 then 0
    else Flips(before, after, n - 1) + (if !before[n - 1].counted && after[n - 1].counted then 1 else 0)
  }

  lemma {:induction false} FlipsOfPrefix(a: seq<Pipe>, b: seq<Pipe>, c: seq<Pipe>, m: nat)
    requires m <= |a| == |b| == |c|
    requires forall k :: 0 <= k < m ==> b[k] == c[k]
    ensures Flips(a, b, m) == Flips(a, c, m)
  {
    if m > 0 {
      FlipsOfPrefix(a, b, c, m - 1);
    }
  }

  /** The points of a pass over the first `n` pipes are exactly the pipes
      whose counted flag the pass turns from false to true. */
  lemma {:induction false} GainedIsFlips(s: seq<Pipe>, n: nat, speed: real)
    requires n <= |s|
    ensures Gained(s, n, speed) == Flips(s, PassFirst(s, n, speed), n)
  {
    if n > 0 {
      GainedIsFlips(s, n - 1, speed);
      FlipsOfPrefix(s, PassFirst(s, n, speed), PassFirst(s, n - 1, speed), n - 1);
    }
  }

  /** Index of the first pipe at or after `i` the bird hits once the pipe has
      moved, or None when it hits none. */
  function FirstHitFrom(y: real, s: seq<Pipe>, speed: real, i: nat): (r: Option<nat>)
    ensures r.Some? ==> i <= r.value < |s| && HitsPipe(y, MovePipe(s[r.value], speed))
    ensures r.Some? ==> forall k :: i <= k < r.value ==> !HitsPipe(y, MovePipe(s[k], speed))
    ensures r.None? ==> forall k :: i <= k < |s| ==> !HitsPipe(y, MovePipe(s[k], speed))
    decreases |s| - i
  {
    if i >= |s| then None
    else if HitsPipe(y, MovePipe(s[i], speed)) then Some(i)
    else FirstHitFrom(y, s, speed, i + 1)
  }

  /** The pipe's right edge is still right of the canvas's left edge. */
  predicate OnScreen(p: Pipe)
  {
    p.x + p.width as real > 0.0
  }

  /** The pipes still on screen, in their original order. */
  function Prune(s: seq<Pipe>): (r: seq<Pipe>)
    ensures |r| <= |s|
    ensures forall p :: p in r <==> p in s && p.x + p.width as real > 0.0
  {
    Filter(s, OnScreen)
  }

  /** One pipe followed over `n` frames of moving and scoring. */
  function PipeAfter(p: Pipe, speed: real, n: nat): Pipe
  {
    if n == 0 then p else ScorePipe(MovePipe(PipeAfter(p, speed, n - 1), speed))
  }

  /** Points one pipe yields over `n` frames. */
  function PointsOver(p: Pipe, speed: real, n: nat): nat
  {
    if n == 0 then 0
    else PointsOver(p, speed, n - 1) + (if NewlyPassed(MovePipe(PipeAfter(p, speed, n - 1), speed)) then 1 else 0)
  }

  /** A pipe scores at most once however long it is followed: its points are
      exactly one when its flag went from false to true, and zero otherwise. */
  lemma {:induction false} ScoresAtMostOnce(p: Pipe, speed: real, n: nat)
    ensures PointsOver(p, speed, n) == if PipeAfter(p, speed, n).counted && !p.counted then 1 else 0
    ensures p.counted ==> PipeAfter(p, speed, n).counted
  {
    if n > 0 {
      ScoresAtMostOnce(p, speed, n - 1);
    }
  }

  predicate WellFormed(p: Pipe)
  {
    && p.width == PipeWidth
    && MinSegment <= p.topHeight < p.bottomY
    && CanvasHeight - p.bottomY > MinSegment
  }

  /** Moving and scoring pipes keeps their shape. */
  lemma PassFirstShape(s: seq<Pipe>, n: int, speed: real)
    requires forall k :: 0 <= k < |s| ==> WellFormed(s[k])
    ensures forall k :: 0 <= k < |s| ==> WellFormed(PassFirst(s, n, speed)[k])
    ensures forall k :: 0 <= k < |s| ==> WellFormed(MovePipe(s[k], speed))
  {
  }

  lemma PruneShape(s: seq<Pipe>)
    requires forall k :: 0 <= k < |s| ==> WellFormed(s[k])
    ensures forall k :: 0 <= k < |Prune(s)| ==> WellFormed(Prune(s)[k])
  {
    forall k | 0 <= k < |Prune(s)|
      ensures WellFormed(Prune(s)[k])
    {
      assert Prune(s)[k] in s;
    }
  }

  class Game {
    var score: nat
    var highScore: nat
    var gameStarted: bool
    var gameOver: bool
    var gamePaused: bool
    var difficulty: Difficulty
    var birdY: real
    var velocity: real
    var gravity: real
    var jumpStrength: real
    var pipes: seq<Pipe>
    var lastPipeTime: int

    /** The object invariant: every pipe pair leaves both segments on screen
        with a gap between them, and a running game falls with the gravity of
        the current difficulty. */
    ghost predicate Valid()
      reads this
    {
      && (forall k :: 0 <= k < |pipes| ==> WellFormed(pipes[k]))
      && (Running() ==> gravity == Gravity(difficulty))
    }

    predicate Running()
      reads this
    {
      gameStarted && !gameOver && !gamePaused
    }

    /** The state right after a start at time `now` from a game with high
        score `high` at difficulty `diff`. */
    predicate JustStarted(high: nat, diff: Difficulty, now: int)
      reads this
    {
      && Running()
      && score == 0 && birdY == StartY && velocity == 0.0
      && gravity == Gravity(diff) && jumpStrength == JumpStrength(diff)
      && pipes == [] && lastPipeTime == now
      && highScore == high && difficulty == diff
    }

    /** The component as first shown, with the high score read from storage. */
    constructor (storedHighScore: nat)
      ensures Valid()
      ensures !gameStarted && !gameOver && !gamePaused && score == 0
      ensures highScore == storedHighScore && difficulty == Easy
      ensures birdY == StartY && velocity == 0.0 && gravity == 0.5 && jumpStrength == -10.0
      ensures pipes == [] && lastPipeTime == 0
    {
      score := 0;
      highScore := storedHighScore;
      gameStarted, gameOver, gamePaused := false, false, false;
      difficulty := Easy;
      birdY, velocity, gravity, jumpStrength := StartY, 0.0, 0.5, -10.0;
      pipes := [];
      lastPipeTime := 0;
    }

    /** What happens when the loop is (re)armed, on every change of the run
        flags or the difficulty: a running game takes the difficulty's gravity. */
    method ArmLoop()
      modifies this`gravity
      ensures Running() ==> gravity == Gravity(difficulty)
      ensures !Running() ==> gravity == old(gravity)
    {
      if gameStarted && !gameOver && !gamePaused {
        gravity := Gravity(difficulty);
      }
    }

    /** Starts a run at time `now`: the bird back at its start, at rest, with
        the difficulty's gravity and jump; no pipes; score 0. */
    method StartGame(now: int)
      modifies this
      ensures Valid() && JustStarted(old(highScore), old(difficulty), now)
    {
      gameStarted, gameOver, score, gamePaused := true, false, 0, false;
      birdY, velocity := StartY, 0.0;
      gravity, jumpStrength := Gravity(difficulty), JumpStrength(difficulty);
      pipes := [];
      lastPipeTime := now;
      ArmLoop();
    }

    /** Ends the run; the high score is replaced when the score beats it. */
    method EndGame()
      requires Valid()
      modifies this`gameOver, this`highScore
      ensures Valid() && gameOver
      ensures highScore == RecordHighScore(old(highScore), score)
    {
      gameOver := true;
      highScore := RecordHighScore(highScore, score);
    }

    /** Pausing toggles in every state, even before a run or after it ended. */
    method TogglePause()
      requires Valid()
      modifies this`gamePaused, this`gravity
      ensures Valid()
      ensures gamePaused == !old(gamePaused)
      ensures Running() ==> gravity == Gravity(difficulty)
      ensures !Running() ==> gravity == old(gravity)
    {
      gamePaused := !gamePaused;
      ArmLoop();
    }

    /** The difficulty buttons stay enabled during a run: a change applies at
        once to gravity, pipe speed, spawn rate and gap, but not to the jump. */
    method SetDifficulty(d: Difficulty)
      requires Valid()
      modifies this`difficulty, this`gravity
      ensures Valid() && difficulty == d
      ensures Running() ==> gravity == Gravity(d)
      ensures !Running() ==> gravity == old(gravity)
    {
      difficulty := d;
      ArmLoop();
    }

    /** A jump (Space or a tap) at time `now`: ignored once over; starts a run
        not yet started; ignored while paused; otherwise sets the velocity to
        the jump strength, whatever it was. */
    method HandleJump(now: int)
      requires Valid()
      modifies this
      ensures Valid()
      ensures old(gameOver) ==> velocity == old(velocity) && gameOver && score == old(score) && birdY == old(birdY)
      ensures !old(gameOver) && !old(gameStarted) ==> JustStarted(old(highScore), old(difficulty), now)
      ensures !old(gameOver) && old(gameStarted) && old(gamePaused) ==> velocity == old(velocity) && gamePaused
      ensures old(Running()) ==> velocity == old(jumpStrength) && Running() && birdY == old(birdY)
      ensures old(gameStarted) || old(gameOver) ==>
                birdY == old(birdY) && score == old(score) && pipes == old(pipes)
                && gameStarted == old(gameStarted) && gameOver == old(gameOver)
                && gamePaused == old(gamePaused) && highScore == old(highScore)
                && difficulty == old(difficulty) && gravity == old(gravity)
                && jumpStrength == old(jumpStrength) && lastPipeTime == old(lastPipeTime)
    {
      if gameOver {
        return;
      }
      if !gameStarted {
        StartGame(now);
        return;
      }
      if gamePaused {
        return;
      }
      velocity := jumpStrength;
    }

    /** A key press at time `now`: Space jumps, Escape toggles the pause. */
    method HandleKeyDown(key: Key, now: int)
      requires Valid()
      modifies this
      ensures Valid()
      ensures key == Space && old(Running()) ==> velocity == old(jumpStrength) && Running()
      ensures key == Space && !old(gameOver) && !old(gameStarted) ==>
                JustStarted(old(highScore), old(difficulty), now)
      ensures key == Space && (old(gameOver) || (old(gameStarted) && old(gamePaused))) ==> velocity == old(velocity)
      ensures key == Escape ==> gamePaused == !old(gamePaused)
      ensures key == Escape && Running() ==> gravity == Gravity(difficulty)
      ensures key == Escape && !Running() ==> gravity == old(gravity)
      ensures key != Space ==> velocity == old(velocity)
      ensures key != Escape && !(key == Space && !old(gameOver) && !old(gameStarted)) ==> gamePaused == old(gamePaused)
      ensures !(key == Space && !old(gameOver) && !old(gameStarted)) ==>
                birdY == old(birdY) && score == old(score) && pipes == old(pipes)
                && gameStarted == old(gameStarted) && gameOver == old(gameOver)
                && highScore == old(highScore) && difficulty == old(difficulty)
                && jumpStrength == old(jumpStrength) && lastPipeTime == old(lastPipeTime)
      ensures key != Escape && !(key == Space && !old(gameOver) && !old(gameStarted)) ==>
                gravity == old(gravity)
    {
      if key == Space {
        HandleJump(now);
      } else if key == Escape {
        TogglePause();
      }
    }

    /** One animation frame of a running game at time `now`, with `gapDraw`
        the random gap position: fall; spawn a pipe pair if more than the spawn
        interval has passed; move and score the pipes, ending the run at the
        first one the bird hits; drop the pipes off the left edge; then end the
        run if the bird is below the ground or above the ceiling. */
    method Frame(now: int, gapDraw: int)
      requires Valid() && Running()
      requires 0 <= gapDraw < CanvasHeight - GapHeight(difficulty) - 2 * MinSegment
      modifies this`velocity, this`birdY, this`pipes, this`lastPipeTime
      modifies this`score, this`gameOver, this`highScore
      ensures Valid() && gameStarted && !gamePaused && difficulty == old(difficulty)
      ensures velocity == old(velocity) + gravity && birdY == old(birdY) + velocity
      ensures var spawn := now - old(lastPipeTime) > PipeInterval(difficulty);
              lastPipeTime == (if spawn then now else old(lastPipeTime))
      ensures var spawn := now - old(lastPipeTime) > PipeInterval(difficulty);
              var spawned := if spawn then old(pipes) + [SpawnPipe(gapDraw, GapHeight(difficulty))] else old(pipes);
              var speed := PipeSpeed(difficulty);
              match FirstHitFrom(birdY, spawned, speed, 0)
              case Some(i) =>
                gameOver && pipes == PassFirst(spawned, i, speed)[i := MovePipe(spawned[i], speed)]
                && score == old(score) + Gained(spawned, i, speed)
                && highScore == RecordHighScore(old(highScore), score)
              case None =>
                pipes == Prune(PassFirst(spawned, |spawned|, speed))
                && score == old(score) + Gained(spawned, |spawned|, speed)
                && gameOver == (birdY + BirdHeight as real > CanvasHeight as real || birdY < 0.0)
                && highScore == (if gameOver then RecordHighScore(old(highScore), score) else old(highScore))
    {
      Fall();
      SpawnIfDue(now, gapDraw);
      ghost var spawned := pipes;
      var hit := MovePipes();
      assert spawned == (if now - old(lastPipeTime) > PipeInterval(difficulty)
                         then old(pipes) + [SpawnPipe(gapDraw, GapHeight(difficulty))] else old(pipes));
      if !hit {
        CheckBounds();
      }
    }

    /** The ground and the ceiling: the run ends when the bird's bottom edge is
        below the canvas or its top edge above it. */
    method CheckBounds()
      requires Valid() && Running()
      modifies this`gameOver, this`highScore
      ensures Valid() && gameStarted && !gamePaused
      ensures gameOver == (birdY + BirdHeight as real > CanvasHeight as real || birdY < 0.0)
      ensures highScore == (if gameOver then RecordHighScore(old(highScore), score) else old(highScore))
    {
      if birdY + BirdHeight as real > CanvasHeight as real || birdY < 0.0 {
        EndGame();
      }
    }

    /** Gravity, then velocity: the velocity grows first and the new velocity
        moves the bird. */
    method Fall()
      requires Valid()
      modifies this`velocity, this`birdY
      ensures Valid()
      ensures velocity == old(velocity) + gravity && birdY == old(birdY) + velocity
      ensures (birdY, velocity) == FallFor(old(birdY), old(velocity), gravity, 1)
    {
      velocity := velocity + gravity;
      birdY := birdY + velocity;
    }

    /** The timed spawn: strictly more than the interval since the last spawn
        appends one pipe pair and restarts the timer. */
    method SpawnIfDue(now: int, gapDraw: int)
      requires Valid()
      requires 0 <= gapDraw < CanvasHeight - GapHeight(difficulty) - 2 * MinSegment
      modifies this`pipes, this`lastPipeTime
      ensures Valid()
      ensures var spawn := now - old(lastPipeTime) > PipeInterval(difficulty);
              && pipes == (if spawn then old(pipes) + [SpawnPipe(gapDraw, GapHeight(difficulty))] else old(pipes))
              && lastPipeTime == (if spawn then now else old(lastPipeTime))
    {
      if now - lastPipeTime > PipeInterval(difficulty) {
        pipes := pipes + [SpawnPipe(gapDraw, GapHeight(difficulty))];
        lastPipeTime := now;
      }
    }

    /** Moves the pipes left in order; the first one the bird then hits ends
        the run and leaves the later ones unmoved; the others score once when
        the bird is past them; afterwards the pipes off screen are dropped. */
    method MovePipes() returns (hit: bool)
      requires Valid() && Running()
      modifies this`pipes, this`score, this`gameOver, this`highScore
      ensures Valid() && gameStarted && !gamePaused
      ensures var speed := PipeSpeed(difficulty);
              match FirstHitFrom(birdY, old(pipes), speed, 0)
              case Some(i) =>
                hit && gameOver && pipes == PassFirst(old(pipes), i, speed)[i := MovePipe(old(pipes)[i], speed)]
                && score == old(score) + Gained(old(pipes), i, speed)
                && highScore == RecordHighScore(old(highScore), score)
              case None =>
                !hit && !gameOver && pipes == Prune(PassFirst(old(pipes), |old(pipes)|, speed))
                && score == old(score) + Gained(old(pipes), |old(pipes)|, speed)
                && highScore == old(highScore)
    {
      var speed := PipeSpeed(difficulty);
      var hitAt := ScanPipes(speed);
      match hitAt
      case Some(i) =>
        PassFirstShape(old(pipes), i, speed);
        EndGame();
        hit := true;
      case None =>
        PassFirstShape(old(pipes), |old(pipes)|, speed);
        PruneShape(pipes);
        pipes := Prune(pipes);
        hit := false;
    }

    /** The pass over the pipes: each moves left and scores if newly passed,
        until the first one the bird hits, which moves but neither scores nor
        lets the later ones move. */
    method ScanPipes(speed: real) returns (hitAt: Option<nat>)
      modifies this`pipes, this`score
      ensures hitAt == FirstHitFrom(birdY, old(pipes), speed, 0)
      ensures match hitAt
              case Some(i) =>
                pipes == PassFirst(old(pipes), i, speed)[i := MovePipe(old(pipes)[i], speed)]
                && score == old(score) + Gained(old(pipes), i, speed)
              case None =>
                pipes == PassFirst(old(pipes), |old(pipes)|, speed)
                && score == old(score) + Gained(old(pipes), |old(pipes)|, speed)
    {
      var i := 0;
      while i < |pipes|
        invariant 0 <= i <= |pipes| == |old(pipes)|
        invariant pipes == PassFirst(old(pipes), i, speed)
        invariant score == old(score) + Gained(old(pipes), i, speed)
        invariant FirstHitFrom(birdY, old(pipes), speed, 0) == FirstHitFrom(birdY, old(pipes), speed, i)
      {
        var p := MovePipe(pipes[i], speed);
        if HitsPipe(birdY, p) {
          pipes := pipes[i := p];
          return Some(i);
        }
        if NewlyPassed(p) {
          score := score + 1;
        }
        PassFirstStep(old(pipes), i, speed);
        pipes := pipes[i := ScorePipe(p)];
        i := i + 1;
      }
      return None;
    }
  }
}
