// Tic-Tac-Toe: a 3 x 3 board of squares numbered 0..8 row by row. X moves
// first and the players alternate; a click on an empty square of an
// undecided game places the mover's mark. The status line names the
// winner, reports a draw, or names the next player.
module TicTacToe {
  import opened Arcade

  datatype Player = X | O

  datatype Square = Empty | Mark(player: Player)

  /** What the status line shows. `Blank` is the empty status a reset sets
      before the board's check runs again. */
  datatype Status = Blank | Winner(player: Player) | Draw | NextPlayer(player: Player)

  /** The eight winning lines: three rows, three columns, two diagonals. */
  const Lines: seq<(nat, nat, nat)> := [
    (0, 1, 2), (3, 4, 5), (6, 7, 8),
    (0, 3, 6), (1, 4, 7), (2, 5, 8),
    (0, 4, 8), (2, 4, 6)
  ]

  function Other(p: Player): Player
  {
    if p == X then O else X
  }

  function ToMove(xIsNext: bool): Player
  {
    if xIsNext then X else O
  }

  /** Line `i` of the board holds the same mark in all three squares. */
  predicate LineWonBy(b: seq<Square>, i: nat, p: Player)
    requires |b| == 9 && i < |Lines|
  {
    var (a, c, d) := Lines[i];
    b[a] == Mark(p) && b[c] == Mark(p) && b[d] == Mark(p)
  }

  /** Some line of the board is all `p`. */
  predicate HasLine(b: seq<Square>, p: Player)
    requires |b| == 9
  {
    exists i :: 0 <= i < |Lines| && LineWonBy(b, i, p)
  }

  /** The scan over the lines from line `i` on: the mark of the first line
      whose three squares hold the same mark, or None. Empty squares never
      win a line. */
  function WinnerFrom(b: seq<Square>, i: nat): (r: Option<Player>)
    requires |b| == 9
    ensures r.Some? ==> exists k :: i <= k < |Lines| && LineWonBy(b, k, r.value)
    ensures r.None? ==> forall k, p :: i <= k < |Lines| ==> !LineWonBy(b, k, p)
    decreases |Lines| - i
  {
    if i >= |Lines| then None
    else
      var (a, c, d) := Lines[i];
      if b[a] != Empty && b[a] == b[c] && b[a] == b[d] then
        assert LineWonBy(b, i, b[a].player);
        Some(b[a].player)
      else WinnerFrom(b, i + 1)
  }

  /** The winner of the board, if any line is complete. */
  function WinnerOf(b: seq<Square>): (r: Option<Player>)
    requires |b| == 9
    ensures r.Some? ==> HasLine(b, r.value)
    ensures r.None? <==> !HasLine(b, X) && !HasLine(b, O)
  {
    var r := WinnerFrom(b, 0);
    assert r.Some? ==> r.value == X || r.value == O;
    r
  }

  predicate Full(b: seq<Square>)
  {
    forall k :: 0 <= k < |b| ==> b[k] != Empty
  }

  /** The status after the board's check: the winner if there is one, else a
      draw on a full board, else the player to move. */
  function StatusOf(b: seq<Square>, xIsNext: bool): (r: Status)
    requires |b| == 9
    ensures r.Winner? <==> WinnerOf(b).Some?
    ensures r.Winner? ==> HasLine(b, r.player)
    ensures r == Draw <==> !HasLine(b, X) && !HasLine(b, O) && Full(b)
    ensures r.NextPlayer? <==> !HasLine(b, X) && !HasLine(b, O) && !Full(b)
    ensures r.NextPlayer? ==> r.player == ToMove(xIsNext)
  {
    match WinnerOf(b)
    case Some(p) => Winner(p)
    case None => if Full(b) then Draw else NextPlayer(ToMove(xIsNext))
  }

  /** The empty board has no complete line and is not full, so its status
      names the player to move. */
  lemma EmptyBoardUndecided(xIsNext: bool)
    ensures WinnerOf(seq(9, _ => Empty)) == None
    ensures StatusOf(seq(9, _ => Empty), xIsNext) == NextPlayer(ToMove(xIsNext))
  {
    var b: seq<Square> := seq(9, _ => Empty);
    forall i, p | 0 <= i < |Lines|
      ensures !LineWonBy(b, i, p)
    {
      assert b[Lines[i].0] == Empty;
    }
    assert b[0] == Empty;
  }

  /** Number of squares holding `p`'s mark. */
  function Count(b: seq<Square>, p: Player): (n: nat)
    ensures n <= |b|
  {
    if b == [] then 0 else Count(b[..|b| - 1], p) + (if b[|b| - 1] == Mark(p) then 1 else 0)
  }

  /** Writing `p`'s mark on an empty square adds one to `p`'s count and
      leaves the other player's count alone. */
  lemma {:induction false} CountAfterMark(b: seq<Square>, i: nat, p: Player)
    requires i < |b| && b[i] == Empty
    ensures Count(b[i := Mark(p)], p) == Count(b, p) + 1
    ensures Count(b[i := Mark(p)], Other(p)) == Count(b, Other(p))
    decreases |b|
  {
    var b' := b[i := Mark(p)];
    if i < |b| - 1 {
      assert b'[..|b'| - 1] == b[..|b| - 1][i := Mark(p)];
      CountAfterMark(b[..|b| - 1], i, p);
    } else {
      assert b'[..|b'| - 1] == b[..|b| - 1];
    }
  }

  lemma {:induction false} CountEmptyBoard(n: nat, p: Player)
    ensures Count(seq(n, _ => Empty), p) == 0
  {
    if n > 0 {
      assert seq(n, _ => Empty)[..n - 1] == seq(n - 1, _ => Empty);
      CountEmptyBoard(n - 1, p);
    }
  }

  /** The marks alternate from X: X has as many marks as O when X is to move,
      one more when O is. */
  predicate Alternating(b: seq<Square>, xIsNext: bool)
  {
    if xIsNext then Count(b, X) == Count(b, O) else Count(b, X) == Count(b, O) + 1
  }

  /** A legal move keeps the alternation. */
  lemma MoveKeepsAlternation(b: seq<Square>, xIsNext: bool, i: nat)
    requires Alternating(b, xIsNext) && i < |b| && b[i] == Empty
    ensures Alternating(b[i := Mark(ToMove(xIsNext))], !xIsNext)
  {
    CountAfterMark(b, i, ToMove(xIsNext));
  }

  class Board {
    var squares: array<Square>
    var xIsNext: bool
    var winner: Option<Player>
    var gameStatus: Status

    /** The object invariant: nine squares whose marks alternate from X, and
        the stored winner is the board's winner. */
    ghost predicate Valid()
      reads this, squares
    {
      && squares.Length == 9
      && Alternating(squares[..], xIsNext)
      && winner == WinnerOf(squares[..])
    }

    /** A fresh board: nine empty squares, X to move; the first check shows
        X as the next player. */
    constructor ()
      ensures Valid() && fresh(squares)
      ensures squares[..] == seq(9, _ => Empty) && xIsNext && winner == None
      ensures gameStatus == NextPlayer(X)
    {
      var board := new Square[9](_ => Empty);
      assert board[..] == seq(9, _ => Empty);
      squares := board;
      xIsNext := true;
      winner := None;
      gameStatus := NextPlayer(X);
      new;
      EmptyBoardUndecided(true);
      CountEmptyBoard(9, X);
      CountEmptyBoard(9, O);
      assert squares[..] == seq(9, _ => Empty);
    }

    /** The board's check, run whenever the board changes: records the winner
        when a line is complete and sets the status line. */
    method CheckWinner()
      requires squares.Length == 9
      modifies this`winner, this`gameStatus
      ensures gameStatus == StatusOf(squares[..], xIsNext)
      ensures winner == if WinnerOf(squares[..]).Some? then WinnerOf(squares[..]) else old(winner)
    {
      var w := WinnerOf(squares[..]);
      if w.Some? {
        winner := w;
      }
      gameStatus := StatusOf(squares[..], xIsNext);
    }

    /** A click on square `index`: ignored once there is a winner or when the
        square is taken; otherwise the mover's mark goes on that square alone,
        the turn passes, and the board is checked again. */
    method HandleClick(index: nat)
      requires Valid() && index < 9
      modifies squares, this`xIsNext, this`winner, this`gameStatus
      ensures Valid()
      ensures old(winner).Some? || old(squares[index]) != Empty ==>
                squares[..] == old(squares[..]) && xIsNext == old(xIsNext)
                && winner == old(winner) && gameStatus == old(gameStatus)
      ensures old(winner).None? && old(squares[index]) == Empty ==>
                squares[..] == old(squares[..])[index := Mark(ToMove(old(xIsNext)))]
                && xIsNext == !old(xIsNext)
                && gameStatus == StatusOf(squares[..], xIsNext)
    {
      if winner.Some? || squares[index] != Empty {
        return;
      }
      MoveKeepsAlternation(squares[..], xIsNext, index);
      squares[index] := Mark(ToMove(xIsNext));
      xIsNext := !xIsNext;
      CheckWinner();
    }

    /** New game: nine empty squares, X to move, no winner, and the check of
        the new board names X as the next player. */
    method ResetGame()
      requires Valid()
      modifies squares, this`xIsNext, this`winner, this`gameStatus
      ensures Valid()
      ensures squares[..] == seq(9, _ => Empty) && xIsNext && winner == None
      ensures gameStatus == NextPlayer(X)
    {
      forall k | 0 <= k < squares.Length {
        squares[k] := Empty;
      }
      xIsNext := true;
      winner := None;
      gameStatus := Blank;
      assert squares[..] == seq(9, _ => Empty);
      CountEmptyBoard(9, X);
      CountEmptyBoard(9, O);
      EmptyBoardUndecided(true);
      CheckWinner();
    }
  }
}
