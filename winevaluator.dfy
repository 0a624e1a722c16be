/** The win evaluator: a board of nine cells, the eight fixed lines and
    calculateWinner, which reports the first complete line in their order. */
module WinEvaluator {

  datatype Option<+T> = None | Some(value: T)

  /** The two marks a player can place. */
  datatype Player = X | O

  /** A square of the board: empty (JavaScript's `null`) or holding a mark. */
  datatype Cell = Empty | Marked(player: Player)

  /** A board is nine cells; square (row, column) sits at index row * 3 + column. */
  type Board = s: seq<Cell> | |s| == 9
    witness [Empty, Empty, Empty, Empty, Empty, Empty, Empty, Empty, Empty]

  /** The board the game starts from: every cell empty. */
  const EmptyBoard: Board := [Empty, Empty, Empty, Empty, Empty, Empty, Empty, Empty, Empty]

  /** A line is an ordered triple of cell indices. */
  type Line = l: seq<nat> | |l| == 3 && l[0] < 9 && l[1] < 9 && l[2] < 9
    witness [0, 1, 2]

  /** The three rows, the three columns and the two diagonals, in the order they are tried. */
  const Lines: seq<Line> := [
    [0, 1, 2],
    [3, 4, 5],
    [6, 7, 8],
    [0, 3, 6],
    [1, 4, 7],
    [2, 5, 8],
    [0, 4, 8],
    [2, 4, 6]
  ]

  /** What calculateWinner returns when it finds a line: the symbol and the line itself. */
  datatype Outcome = Outcome(winner: Player, winningSet: Line)

  /** The index of square (row, column), as the board numbers its squares. */
  function SquareNumber(row: nat, column: nat): (n: nat)
    ensures row < 3 && column < 3 ==> n < 9
  {
    column + row * 3
  }

  /** The three cells of `line` are non-empty and equal. */
  predicate Completes(squares: Board, line: Line)
  {
    squares[line[0]] != Empty && squares[line[0]] == squares[line[1]] && squares[line[0]] == squares[line[2]]
  }

  /** Line number k is complete and no line before it in the fixed order is. */
  ghost predicate IsFirstWin(squares: Board, k: int)
  {
    0 <= k < |Lines| && Completes(squares, Lines[k]) &&
    forall j :: 0 <= j < k ==> !Completes(squares, Lines[j])
  }

  /** The outcome reported for a complete line: the mark on it and the line. */
  function OutcomeOf(squares: Board, line: Line): (o: Outcome)
    requires Completes(squares, line)
    ensures Marked(o.winner) == squares[line[0]] && o.winningSet == line
    ensures forall n :: n in o.winningSet ==> squares[n] == Marked(o.winner)
  {
    Outcome(squares[line[0]].player, line)
  }

  /** The first complete line among Lines[from..], tried in order. */
  function WinnerFrom(squares: Board, from: nat): (r: Option<Outcome>)
    requires from <= |Lines|
    ensures r.Some? ==> r.value.winningSet in Lines[from..] && Completes(squares, r.value.winningSet)
    ensures r.Some? ==> squares[r.value.winningSet[0]] == Marked(r.value.winner)
    decreases |Lines| - from
  {
    if from == |Lines| then None
    else if Completes(squares, Lines[from]) then Some(OutcomeOf(squares, Lines[from]))
    else WinnerFrom(squares, from + 1)
  }

  /** The value of calculateWinner(squares): None stands for JavaScript's `null`. */
  function Winner(squares: Board): (r: Option<Outcome>)
    ensures r.Some? ==> r.value.winningSet in Lines && Completes(squares, r.value.winningSet)
    ensures r.Some? ==> squares[r.value.winningSet[0]] == Marked(r.value.winner)
  {
    WinnerFrom(squares, 0)
  }

  lemma {:induction false} WinnerFromCharacterized(squares: Board, from: nat)
    requires from <= |Lines|
    ensures WinnerFrom(squares, from).None? <==> forall k :: from <= k < |Lines| ==> !Completes(squares, Lines[k])
    ensures forall k :: from <= k < |Lines| && Completes(squares, Lines[k]) &&
                        (forall j :: from <= j < k ==> !Completes(squares, Lines[j])) ==>
                          WinnerFrom(squares, from) == Some(OutcomeOf(squares, Lines[k]))
    decreases |Lines| - from
  {
    if from < |Lines| {
      WinnerFromCharacterized(squares, from + 1);
    }
  }

  /** calculateWinner returns the first complete line in the listed order with
      its symbol, and null exactly when no line is complete. */
  lemma WinnerCharacterized(squares: Board)
    ensures Winner(squares).None? <==> forall k :: 0 <= k < |Lines| ==> !Completes(squares, Lines[k])
    ensures Winner(squares).Some? <==> exists k :: IsFirstWin(squares, k)
    ensures forall k :: IsFirstWin(squares, k) ==> Winner(squares) == Some(OutcomeOf(squares, Lines[k]))
  {
    WinnerFromCharacterized(squares, 0);
    if Winner(squares).Some? {
      var k :| 0 <= k < |Lines| && Completes(squares, Lines[k]);
      FirstCompleteLine(squares, k);
    }
  }

  /** If some line is complete, some line is the first complete one. */
  lemma {:induction false} FirstCompleteLine(squares: Board, k: nat)
    requires k < |Lines| && Completes(squares, Lines[k])
    ensures exists f :: IsFirstWin(squares, f)
    decreases k
  {
    if exists j :: 0 <= j < k && Completes(squares, Lines[j]) {
      var j :| 0 <= j < k && Completes(squares, Lines[j]);
      FirstCompleteLine(squares, j);
    } else {
      assert IsFirstWin(squares, k);
    }
  }

  /** calculateWinner as the program writes it: a loop over the lines that
      returns at the first complete one. */
  method CalculateWinner(squares: Board) returns (r: Option<Outcome>)
    ensures r == Winner(squares)
    ensures r.None? <==> forall k :: 0 <= k < |Lines| ==> !Completes(squares, Lines[k])
    ensures forall k :: IsFirstWin(squares, k) ==> r == Some(Outcome(squares[Lines[k][0]].player, Lines[k]))
  {
    WinnerCharacterized(squares);
    for i := 0 to |Lines|
      invariant WinnerFrom(squares, i) == Winner(squares)
    {
      var line := Lines[i];
      if squares[line[0]] != Empty && squares[line[0]] == squares[line[1]] && squares[line[0]] == squares[line[2]] {
        return Some(Outcome(squares[line[0]].player, line));
      }
    }
    return None;
  }

  /** The square numbering of the board and the (row, column) location
      recorded for a move are inverse to each other. */
  lemma SquareNumberLocation(i: nat, row: nat, column: nat)
    ensures i < 9 ==> i / 3 < 3 && i % 3 < 3 && SquareNumber(i / 3, i % 3) == i
    ensures row < 3 && column < 3 ==>
      SquareNumber(row, column) < 9 && SquareNumber(row, column) / 3 == row && SquareNumber(row, column) % 3 == column
  {
  }

  /** The board [X,X,X,O,O,_,_,_,_] is won by X on the first row. */
  lemma TopRowWinner()
    ensures Winner([Marked(X), Marked(X), Marked(X), Marked(O), Marked(O), Empty, Empty, Empty, Empty])
            == Some(Outcome(X, [0, 1, 2]))
  {
  }
}
