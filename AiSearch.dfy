/**
 * The exhaustive minimax opponent (`minimax` and `find_best_move`).
 *
 * `Score` and `BestMove` are the reference definitions; the methods
 * `Minimax` and `FindBestMove` do what the source does, writing a marker
 * into the board, searching, and restoring the cell, and are proved to
 * compute those definitions and to leave the board as they found it.
 */
module AiSearch {
  import opened Wrappers
  import opened BoardLogic

  /** Integer stand-ins for the source's -inf/+inf starting scores. */
  const NegInf: int := -2
  const PosInf: int := 2

  function Max(a: int, b: int): int { if a >= b then a else b }
  function Min(a: int, b: int): int { if a <= b then a else b }

  /** The marker placed on this layer: the AI maximizes, the player minimizes. */
  function Mover(maximizing: bool, ai: Mark, player: Mark): Mark {
    if maximizing then ai else player
  }

  /** The board after `m` is written into cell `i`. */
  function Child(b: Board, i: Index, m: Mark): Board {
    b[i := Filled(m)]
  }

  /**
   * The minimax value of `b`: +1 if the AI has won, -1 if the player has
   * won, 0 on a draw, and otherwise the best value over all empty cells
   * for the side to move. There is no discount for depth.
   */
  function Score(b: Board, maximizing: bool, ai: Mark, player: Mark): int
    decreases EmptyCount(b), 1, 0
  {
    var winner := CheckWinner(b);
    if winner == Win(ai) then 1
    else if winner == Win(player) then -1
    else if winner == Draw then 0
    else Best(b, 0, maximizing, ai, player, if maximizing then NegInf else PosInf)
  }

  /** The loop `for i in range(9)` of `minimax` from cell i on, with running best `acc`. */
  function Best(b: Board, i: int, maximizing: bool, ai: Mark, player: Mark, acc: int): int
    requires 0 <= i <= 9
    decreases EmptyCount(b), 0, 9 - i
  {
    if i == 9 then acc
    else if b[i] == Empty then
      EmptyCountFill(b, i, Mover(maximizing, ai, player));
      var s := Score(Child(b, i, Mover(maximizing, ai, player)), !maximizing, ai, player);
      Best(b, i + 1, maximizing, ai, player, if maximizing then Max(s, acc) else Min(s, acc))
    else
      Best(b, i + 1, maximizing, ai, player, acc)
  }

  /** The value of playing cell i for the side to move on `b`. */
  function ChildScore(b: Board, i: Index, maximizing: bool, ai: Mark, player: Mark): int
  {
    Score(Child(b, i, Mover(maximizing, ai, player)), !maximizing, ai, player)
  }

  /**
   * The loop from cell i on never does worse than `acc` and never does
   * worse than any empty cell it visits, and it ends either at `acc` or at
   * the value of one of those cells.
   */
  lemma {:induction false} BestBounds(b: Board, i: int, maximizing: bool, ai: Mark, player: Mark, acc: int)
    requires 0 <= i <= 9
    ensures var r := Best(b, i, maximizing, ai, player, acc);
      && (maximizing ==> r >= acc)
      && (!maximizing ==> r <= acc)
      && (forall j :: i <= j < 9 && b[j] == Empty ==>
            if maximizing then ChildScore(b, j, maximizing, ai, player) <= r
            else ChildScore(b, j, maximizing, ai, player) >= r)
      && (r == acc || exists j :: i <= j < 9 && b[j] == Empty && r == ChildScore(b, j, maximizing, ai, player))
    decreases 9 - i
  {
    if i < 9 {
      if b[i] == Empty {
        var s := ChildScore(b, i, maximizing, ai, player);
        BestBounds(b, i + 1, maximizing, ai, player, if maximizing then Max(s, acc) else Min(s, acc));
      } else {
        BestBounds(b, i + 1, maximizing, ai, player, acc);
      }
    }
  }

  /** Every minimax value is -1, 0 or +1. */
  lemma {:induction false} ScoreRange(b: Board, maximizing: bool, ai: Mark, player: Mark)
    requires ai != player
    ensures -1 <= Score(b, maximizing, ai, player) <= 1
    decreases EmptyCount(b), 1
  {
    if CheckWinner(b) == Ongoing {
      CheckWinnerSpec(b);
      var start := if maximizing then NegInf else PosInf;
      assert Score(b, maximizing, ai, player) == Best(b, 0, maximizing, ai, player, start);
      ChildScoresInRange(b, maximizing, ai, player);
      BestBounds(b, 0, maximizing, ai, player, start);
      var k :| 0 <= k < 9 && b[k] == Empty;
      assert -1 <= ChildScore(b, k, maximizing, ai, player) <= 1;
    }
  }

  /** The values of all moves from `b` are -1, 0 or +1. */
  lemma {:induction false} ChildScoresInRange(b: Board, maximizing: bool, ai: Mark, player: Mark)
    requires ai != player
    ensures forall j :: 0 <= j < 9 && b[j] == Empty ==> -1 <= ChildScore(b, j, maximizing, ai, player) <= 1
    decreases EmptyCount(b), 0
  {
    forall j | 0 <= j < 9 && b[j] == Empty
      ensures -1 <= ChildScore(b, j, maximizing, ai, player) <= 1
    {
      EmptyCountFill(b, j, Mover(maximizing, ai, player));
      ScoreRange(Child(b, j, Mover(maximizing, ai, player)), !maximizing, ai, player);
    }
  }

  /**
   * `Score` is the minimax value: terminal boards score +1/-1/0, and an
   * open board scores the maximum (AI to move) or the minimum (player to
   * move) of the values of its empty cells.
   */
  lemma ScoreIsMinimax(b: Board, maximizing: bool, ai: Mark, player: Mark)
    requires ai != player
    ensures CheckWinner(b) == Win(ai) ==> Score(b, maximizing, ai, player) == 1
    ensures CheckWinner(b) == Win(player) ==> Score(b, maximizing, ai, player) == -1
    ensures CheckWinner(b) == Draw ==> Score(b, maximizing, ai, player) == 0
    ensures CheckWinner(b) == Ongoing ==>
      && (exists j :: 0 <= j < 9 && b[j] == Empty && Score(b, maximizing, ai, player) == ChildScore(b, j, maximizing, ai, player))
      && (forall j :: 0 <= j < 9 && b[j] == Empty ==>
            if maximizing then ChildScore(b, j, maximizing, ai, player) <= Score(b, maximizing, ai, player)
            else ChildScore(b, j, maximizing, ai, player) >= Score(b, maximizing, ai, player))
  {
    if CheckWinner(b) == Ongoing {
      CheckWinnerSpec(b);
      var start := if maximizing then NegInf else PosInf;
      assert Score(b, maximizing, ai, player) == Best(b, 0, maximizing, ai, player, start);
      ChildScoresInRange(b, maximizing, ai, player);
      BestBounds(b, 0, maximizing, ai, player, start);
      var k :| 0 <= k < 9 && b[k] == Empty;
      assert -1 <= ChildScore(b, k, maximizing, ai, player) <= 1;
    }
  }

  /** `minimax(board, depth, is_maximizing, ai_marker, player_marker)`; `depth` is never read, so it is dropped. */
  method Minimax(board: array<Cell>, maximizing: bool, ai: Mark, player: Mark) returns (score: int)
    requires board.Length == 9
    modifies board
    ensures board[..] == old(board[..])
    ensures score == Score(old(board[..]), maximizing, ai, player)
    decreases EmptyCount(board[..])
  {
    ghost var b: Board := board[..];
    var winner := CheckWinner(board[..]);
    if winner == Win(ai) {
      return 1;
    } else if winner == Win(player) {
      return -1;
    } else if winner == Draw {
      return 0;
    }
    var mark := Mover(maximizing, ai, player);
    var bestScore := if maximizing then NegInf else PosInf;
    for i := 0 to 9
      invariant board[..] == b
      invariant Best(b, i, maximizing, ai, player, bestScore) == Score(b, maximizing, ai, player)
    {
      if board[i] == Empty {
        board[i] := Filled(mark);
        assert board[..] == Child(b, i, mark);
        EmptyCountFill(b, i, mark);
        var s := Minimax(board, !maximizing, ai, player);
        board[i] := Empty;
        assert board[..] == b;
        bestScore := if maximizing then Max(s, bestScore) else Min(s, bestScore);
      }
    }
    return bestScore;
  }

  /** The score `find_best_move` gives cell i: O is written there and X replies. */
  function AiScore(b: Board, i: Index): int {
    Score(Child(b, i, O), false, O, X)
  }

  /** The loop of `find_best_move` from cell i on, with its two accumulators. */
  function BestMoveFrom(b: Board, i: int, bestScore: int, bestMove: Option<Index>): Option<Index>
    requires 0 <= i <= 9
    decreases 9 - i
  {
    if i == 9 then bestMove
    else if b[i] == Empty && AiScore(b, i) > bestScore then
      BestMoveFrom(b, i + 1, AiScore(b, i), Some(i))
    else
      BestMoveFrom(b, i + 1, bestScore, bestMove)
  }

  /** The cell `find_best_move` picks for O on `b`, or None on a full board. */
  function BestMove(b: Board): Option<Index> {
    BestMoveFrom(b, 0, NegInf, None)
  }

  /** What the accumulators of `find_best_move` hold once cells 0..i-1 are scanned. */
  predicate Scanned(b: Board, i: int, bestScore: int, bestMove: Option<Index>)
    requires 0 <= i <= 9
  {
    match bestMove
    case None =>
      bestScore == NegInf && forall j :: 0 <= j < i ==> b[j] != Empty
    case Some(m) =>
      && m < i && b[m] == Empty && bestScore == AiScore(b, m)
      && (forall j :: 0 <= j < i && b[j] == Empty ==> AiScore(b, j) <= bestScore)
      && (forall j :: 0 <= j < m && b[j] == Empty ==> AiScore(b, j) < bestScore)
  }

  lemma {:induction false} BestMoveFromScanned(b: Board, i: int, bestScore: int, bestMove: Option<Index>)
    requires 0 <= i <= 9
    requires Scanned(b, i, bestScore, bestMove)
    requires forall j :: 0 <= j < 9 && b[j] == Empty ==> AiScore(b, j) > NegInf
    ensures Scanned(b, 9, AiScoreOf(b, BestMoveFrom(b, i, bestScore, bestMove)), BestMoveFrom(b, i, bestScore, bestMove))
    decreases 9 - i
  {
    if i < 9 {
      if b[i] == Empty && AiScore(b, i) > bestScore {
        BestMoveFromScanned(b, i + 1, AiScore(b, i), Some(i));
      } else {
        BestMoveFromScanned(b, i + 1, bestScore, bestMove);
      }
    }
  }

  /** The score of a chosen cell, NegInf when there is none. */
  function AiScoreOf(b: Board, move: Option<Index>): int {
    if move.Some? then AiScore(b, move.value) else NegInf
  }

  /**
   * `find_best_move` returns None exactly on a full board; otherwise an
   * empty cell whose score is maximal, and because the comparison is a
   * strict `>`, the lowest such cell.
   */
  lemma BestMoveIsLowestArgmax(b: Board)
    ensures BestMove(b).None? <==> Empty !in b
    ensures BestMove(b).Some? ==>
      var m := BestMove(b).value;
      && b[m] == Empty
      && (forall j :: 0 <= j < 9 && b[j] == Empty ==> AiScore(b, j) <= AiScore(b, m))
      && (forall j :: 0 <= j < m && b[j] == Empty ==> AiScore(b, j) < AiScore(b, m))
  {
    forall j | 0 <= j < 9 && b[j] == Empty ensures AiScore(b, j) > NegInf {
      ScoreRange(Child(b, j, O), false, O, X);
    }
    BestMoveFromScanned(b, 0, NegInf, None);
    if Empty in b {
      var k :| 0 <= k < 9 && b[k] == Empty;
      assert BestMove(b).Some?;
    }
  }

  /** `find_best_move`: the AI's reply as O against X. */
  method FindBestMove(board: array<Cell>) returns (move: Option<Index>)
    requires board.Length == 9
    modifies board
    ensures board[..] == old(board[..])
    ensures move == BestMove(old(board[..]))
  {
    ghost var b: Board := board[..];
    var bestScore := NegInf;
    move := None;
    for i := 0 to 9
      invariant board[..] == b
      invariant BestMoveFrom(b, i, bestScore, move) == BestMove(b)
    {
      if board[i] == Empty {
        board[i] := Filled(O);
        assert board[..] == Child(b, i, O);
        var score := Minimax(board, false, O, X);
        board[i] := Empty;
        assert board[..] == b;
        if score > bestScore {
          bestScore := score;
          move := Some(i);
        }
      }
    }
  }

  /** Exceptions of the as-written code. */
  datatype PyError = TypeError

  /**
   * `find_best_move` as written: its call `minimax(board, 0, False)` omits
   * the two marker arguments, so the first empty cell raises a TypeError.
   */
  function FindBestMoveAsWritten(b: Board): (r: Result<Option<Index>, PyError>)
    ensures r.Failure? <==> Empty in b
  {
    if Empty in b then Failure(TypeError) else Success(None)
  }

  /** Whenever the corrected search has a move to offer, the as-written one raises instead. */
  lemma AsWrittenFailsWhereBestMoveExists(b: Board)
    ensures BestMove(b).Some? <==> FindBestMoveAsWritten(b).Failure?
  {
    BestMoveIsLowestArgmax(b);
  }
}
