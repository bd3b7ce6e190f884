/**
 * The 3x3 board and outcome detection (`check_winner`).
 *
 * Cells are numbered 0..8 row by row, as in the source's flat list of
 * nine strings: "" is an empty cell, "X" and "O" are the two markers.
 */
module BoardLogic {

  /** A player's marker, "X" or "O". */
  datatype Mark = X | O

  /** One cell of the board: "" or a marker. */
  datatype Cell = Empty | Filled(mark: Mark)

  /** What `check_winner` returns: None, "X"/"O", or "Draw". */
  datatype Outcome = Ongoing | Win(mark: Mark) | Draw

  /** A cell index. */
  type Index = i: int | 0 <= i < 9

  /** A board always has exactly nine cells. */
  type Board = b: seq<Cell> | |b| == 9
    witness [Empty, Empty, Empty, Empty, Empty, Empty, Empty, Empty, Empty]

  const EmptyBoard: Board := [Empty, Empty, Empty, Empty, Empty, Empty, Empty, Empty, Empty]

  /** The marker that moves after `m`. */
  function Other(m: Mark): (r: Mark)
    ensures r != m
  {
    if m == X then O else X
  }

  /** The eight winning triples, in the order the source scans them. */
  const Lines: seq<(Index, Index, Index)> := [
    (0, 1, 2), (3, 4, 5), (6, 7, 8),
    (0, 3, 6), (1, 4, 7), (2, 5, 8),
    (0, 4, 8), (2, 4, 6)
  ]

  /** The three cells of line `l` hold the same marker. */
  predicate Uniform(b: Board, l: (Index, Index, Index)) {
    b[l.0] == b[l.1] && b[l.1] == b[l.2] && b[l.0] != Empty
  }

  /** No line from the k-th onwards is uniform. */
  predicate NoUniformFrom(b: Board, k: nat) {
    forall j :: k <= j < |Lines| ==> !Uniform(b, Lines[j])
  }

  /** Line k is the first uniform line at or after line `from`. */
  predicate FirstUniformAt(b: Board, from: nat, k: int) {
    from <= k < |Lines| && Uniform(b, Lines[k])
    && forall j :: from <= j < k ==> !Uniform(b, Lines[j])
  }

  /** The scan over `Lines` from the k-th triple onwards, as the source's `for` loop does it. */
  function ScanFrom(b: Board, k: nat): Outcome
    requires k <= |Lines|
    decreases |Lines| - k
  {
    if k == |Lines| then
      (if Empty !in b then Draw else Ongoing)
    else if Uniform(b, Lines[k]) then
      Win(b[Lines[k].0].mark)
    else
      ScanFrom(b, k + 1)
  }

  /** `check_winner`: the outcome of a board. */
  function CheckWinner(b: Board): Outcome {
    ScanFrom(b, 0)
  }

  /**
   * The scan from the k-th triple: the first uniform triple gives its
   * marker; if none is uniform, a board without an empty cell is a draw
   * and any other board is still open.
   */
  lemma {:induction false} ScanFromSpec(b: Board, k: nat)
    requires k <= |Lines|
    ensures var r := ScanFrom(b, k);
      && (r.Win? <==> !NoUniformFrom(b, k))
      && (r.Win? ==> exists j :: FirstUniformAt(b, k, j) && b[Lines[j].0] == Filled(r.mark))
      && (r == Draw <==> NoUniformFrom(b, k) && Empty !in b)
      && (r == Ongoing <==> NoUniformFrom(b, k) && Empty in b)
    decreases |Lines| - k
  {
    if k < |Lines| && !Uniform(b, Lines[k]) {
      ScanFromSpec(b, k + 1);
      var r := ScanFrom(b, k + 1);
      if r.Win? {
        var j :| FirstUniformAt(b, k + 1, j) && b[Lines[j].0] == Filled(r.mark);
        assert FirstUniformAt(b, k, j);
      }
    }
  }

  /**
   * `check_winner` returns the marker of the first uniform triple in list
   * order, "Draw" exactly when no triple is uniform and no cell is empty,
   * and None exactly when no triple is uniform and some cell is empty.
   */
  lemma CheckWinnerSpec(b: Board)
    ensures var r := CheckWinner(b);
      && (r.Win? <==> exists k :: 0 <= k < |Lines| && Uniform(b, Lines[k]))
      && (r.Win? ==> exists k :: FirstUniformAt(b, 0, k) && b[Lines[k].0] == Filled(r.mark))
      && (r == Draw <==> NoUniformFrom(b, 0) && Empty !in b)
      && (r == Ongoing <==> NoUniformFrom(b, 0) && Empty in b)
  {
    ScanFromSpec(b, 0);
  }

  /** When two lines are uniform with different markers, the earlier one decides. */
  lemma FirstLineDecides(b: Board, k: nat)
    requires FirstUniformAt(b, 0, k)
    ensures CheckWinner(b) == Win(b[Lines[k].0].mark)
  {
    CheckWinnerSpec(b);
    assert CheckWinner(b).Win? by { assert Uniform(b, Lines[k]); }
    var j :| FirstUniformAt(b, 0, j) && b[Lines[j].0] == Filled(CheckWinner(b).mark);
    assert Uniform(b, Lines[j]) && Uniform(b, Lines[k]);
    assert !(j < k) && !(k < j);
  }

  /** The number of empty cells; it bounds the remaining game. */
  function EmptyCount(b: seq<Cell>): (n: nat)
    ensures n <= |b|
    ensures n == 0 <==> Empty !in b
  {
    if b == [] then 0
    else (if b[0] == Empty then 1 else 0) + EmptyCount(b[1..])
  }

  /** Filling one empty cell removes exactly one empty cell. */
  lemma {:induction false} EmptyCountFill(b: seq<Cell>, i: int, m: Mark)
    requires 0 <= i < |b| && b[i] == Empty
    ensures EmptyCount(b[i := Filled(m)]) == EmptyCount(b) - 1
  {
    if i > 0 {
      EmptyCountFill(b[1..], i - 1, m);
      assert b[i := Filled(m)][1..] == b[1..][i - 1 := Filled(m)];
    } else {
      assert b[i := Filled(m)][1..] == b[1..];
    }
  }

  /** A sequence of empty cells counts all of them. */
  lemma {:induction false} AllEmptyCount(b: seq<Cell>)
    requires forall i :: 0 <= i < |b| ==> b[i] == Empty
    ensures EmptyCount(b) == |b|
  {
    if b != [] {
      AllEmptyCount(b[1..]);
    }
  }

  /** The empty board has nine empty cells and no outcome yet. */
  lemma EmptyBoardCount()
    ensures EmptyCount(EmptyBoard) == 9 && CheckWinner(EmptyBoard) == Ongoing
  {
    AllEmptyCount(EmptyBoard);
    CheckWinnerSpec(EmptyBoard);
    assert EmptyBoard[0] == Empty;
  }
}
