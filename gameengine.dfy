/** The state of the Game component: the history of board snapshots, the
    step being shown, whose turn it is and the order of the move list, with
    the three handlers that change it and the queries its rendering derives. */
module GameEngine {
  import opened WinEvaluator
  import Decimal

  /** The square a move was played on. */
  datatype Location = Location(row: nat, column: nat)

  /** One snapshot of the history: the board and the location of the move
      that produced it (None for the start, where the program stores a null
      row and column). */
  datatype Entry = Entry(squares: Board, location: Option<Location>)

  /** The entry the game starts with. */
  const StartEntry: Entry := Entry(EmptyBoard, None)

  /** The mark placed by the player whose turn it is. */
  function Mark(xIsNext: bool): (c: Cell)
    ensures c != Empty
    ensures c.player == X <==> xIsNext
  {
    if xIsNext then Marked(X) else Marked(O)
  }

  /** The player who makes move number `step` (counting from 0): X on even steps. */
  function PlayerAt(step: nat): (p: Player)
    ensures Marked(p) == Mark(step % 2 == 0)
  {
    if step % 2 == 0 then X else O
  }

  /** `next` is what a click on an empty square of the undecided board of
      `prev` produces when move number `step` is being made. */
  ghost predicate Follows(prev: Entry, next: Entry, step: nat)
  {
    Winner(prev.squares).None? &&
    next.location.Some? &&
    var loc := next.location.value;
    loc.row < 3 && loc.column < 3 &&
    prev.squares[SquareNumber(loc.row, loc.column)] == Empty &&
    next.squares == prev.squares[SquareNumber(loc.row, loc.column) := Marked(PlayerAt(step))]
  }

  /** A history that the handlers can build: it starts with the empty board
      and every later entry is one legal move after the one before it. */
  ghost predicate LegalHistory(h: seq<Entry>)
  {
    |h| >= 1 && h[0] == StartEntry &&
    forall k :: 0 <= k < |h| - 1 ==> Follows(h[k], h[k + 1], k)
  }

  lemma LegalPrefix(h: seq<Entry>, n: nat)
    requires LegalHistory(h) && 1 <= n <= |h|
    ensures LegalHistory(h[..n])
  {
    forall k | 0 <= k < n - 1
      ensures Follows(h[..n][k], h[..n][k + 1], k)
    {
      assert h[..n][k] == h[k] && h[..n][k + 1] == h[k + 1];
    }
  }

  lemma LegalExtend(h: seq<Entry>, e: Entry)
    requires LegalHistory(h) && Follows(h[|h| - 1], e, |h| - 1)
    ensures LegalHistory(h + [e])
  {
    var h' := h + [e];
    forall k | 0 <= k < |h'| - 1
      ensures Follows(h'[k], h'[k + 1], k)
    {
      if k < |h| - 1 {
        assert h'[k] == h[k] && h'[k + 1] == h[k + 1];
      }
    }
  }

  /** The board after k legal moves holds k marks, (k + 1) / 2 of them X's
      and k / 2 of them O's: X moves first and the players alternate. */
  lemma {:induction false} MarksAtStep(h: seq<Entry>, k: nat)
    requires LegalHistory(h) && k < |h|
    ensures multiset(h[k].squares)[Empty] == 9 - k
    ensures multiset(h[k].squares)[Marked(X)] == (k + 1) / 2
    ensures multiset(h[k].squares)[Marked(O)] == k / 2
    decreases k
  {
    if k == 0 {
      assert multiset(EmptyBoard) == multiset{Empty, Empty, Empty, Empty, Empty, Empty, Empty, Empty, Empty};
    } else {
      MarksAtStep(h, k - 1);
      assert Follows(h[k - 1], h[k], k - 1);
      var loc := h[k].location.value;
      MarkOneSquare(h[k - 1].squares, SquareNumber(loc.row, loc.column), PlayerAt(k - 1));
    }
  }

  /** Marking an empty square turns one Empty into one mark and leaves the other counts alone. */
  lemma MarkOneSquare(squares: Board, n: nat, p: Player)
    requires n < 9 && squares[n] == Empty
    ensures multiset(squares[n := Marked(p)])[Empty] == multiset(squares)[Empty] - 1
    ensures multiset(squares[n := Marked(p)])[Marked(p)] == multiset(squares)[Marked(p)] + 1
    ensures forall q :: q != p ==> multiset(squares[n := Marked(p)])[Marked(q)] == multiset(squares)[Marked(q)]
  {
    var after := squares[n := Marked(p)];
    assert squares == squares[..n] + [Empty] + squares[n + 1..];
    assert after == squares[..n] + [Marked(p)] + squares[n + 1..];
  }

  /** A history never holds more than ten entries: the start and at most nine moves. */
  lemma HistoryBounded(h: seq<Entry>)
    requires LegalHistory(h)
    ensures |h| <= 10
  {
    MarksAtStep(h, |h| - 1);
  }

  /** A full board, the condition for a draw, is reached only after the ninth move. */
  lemma FullBoardAtStepNine(h: seq<Entry>, k: nat)
    requires LegalHistory(h) && k < |h|
    requires forall n :: 0 <= n < 9 ==> h[k].squares[n] != Empty
    ensures k == 9
  {
    MarksAtStep(h, k);
    assert Empty !in h[k].squares;
  }

  /** No move is ever made from a won board, and the start is not won. */
  lemma UndecidedBeforeLast(h: seq<Entry>)
    requires LegalHistory(h)
    ensures forall k :: 0 <= k < |h| - 1 ==> Winner(h[k].squares).None?
    ensures Winner(h[0].squares).None?
  {
    forall k | 0 <= k < |h| - 1
      ensures Winner(h[k].squares).None?
    {
      assert Follows(h[k], h[k + 1], k);
    }
  }

  /** Marking a square outside a line does not change whether the line is complete. */
  lemma MarkOutsideLine(prev: Board, n: nat, c: Cell, line: Line)
    requires n < 9
    ensures n !in line ==> (Completes(prev[n := c], line) <==> Completes(prev, line))
  {
  }

  /** A won board in a legal history is its last entry, and the line was
      completed by the player who made the last move. */
  lemma LastMoverWins(h: seq<Entry>, k: nat)
    requires LegalHistory(h) && k < |h| && Winner(h[k].squares).Some?
    ensures 0 < k == |h| - 1
    ensures Winner(h[k].squares).value.winner == PlayerAt(k - 1)
  {
    UndecidedBeforeLast(h);
    assert Follows(h[k - 1], h[k], k - 1);
    var prev, next := h[k - 1].squares, h[k].squares;
    var loc := h[k].location.value;
    var n := SquareNumber(loc.row, loc.column);
    var line := Winner(next).value.winningSet;
    WinnerCharacterized(prev);
    MarkOutsideLine(prev, n, Marked(PlayerAt(k - 1)), line);
    assert n in line;
  }

  /** What the status line shows. */
  datatype Status = Won(winner: Player) | Draw | NextPlayer(player: Player)

  /** The status of a board: a winner first, then a draw when no square is
      empty, otherwise the player to move. */
  function StatusOf(squares: Board, xIsNext: bool): (s: Status)
    ensures s.Won? <==> exists k :: IsFirstWin(squares, k)
    ensures forall k :: IsFirstWin(squares, k) ==> s == Won(squares[Lines[k][0]].player)
    ensures s == Draw <==>
      (forall k :: 0 <= k < |Lines| ==> !Completes(squares, Lines[k])) &&
      (forall n :: 0 <= n < 9 ==> squares[n] != Empty)
    ensures s.NextPlayer? <==>
      (forall k :: 0 <= k < |Lines| ==> !Completes(squares, Lines[k])) &&
      (exists n :: 0 <= n < 9 && squares[n] == Empty)
    ensures s.NextPlayer? ==> Marked(s.player) == Mark(xIsNext)
  {
    WinnerCharacterized(squares);
    match Winner(squares)
    case Some(o) => Won(o.winner)
    case None => if Empty !in squares then Draw else NextPlayer(Mark(xIsNext).player)
  }

  /** The squares drawn highlighted: the winning line, or none. */
  function WinningSet(squares: Board): (r: seq<nat>)
    ensures r == [] <==> Winner(squares).None?
    ensures r != [] ==> |r| == 3 && r in Lines
    ensures forall n :: n in r ==> n < 9 && squares[n] == Marked(Winner(squares).value.winner)
    ensures forall k :: IsFirstWin(squares, k) ==> r == Lines[k]
  {
    WinnerCharacterized(squares);
    match Winner(squares)
    case Some(o) => o.winningSet
    case None => []
  }

  /** A move-list entry, before it is turned into text. */
  datatype Label = GameStart | GoToMove(move: nat, column: nat, row: nat)

  /** The label of the entry numbered `move`: the start when it has no location. */
  function LabelOf(e: Entry, move: nat): Label
  {
    match e.location
    case None => GameStart
    case Some(loc) => GoToMove(move, loc.column, loc.row)
  }

  /** One label per history entry, in history order. */
  function MakeList(h: seq<Entry>): (labels: seq<Label>)
    ensures |labels| == |h|
  {
    seq(|h|, m requires 0 <= m < |h| => LabelOf(h[m], m))
  }

  /** The text of a label, as the move-list button shows it. */
  function Text(l: Label): string
  {
    match l
    case GameStart => "Go to game start"
    case GoToMove(m, c, r) =>
      "Go to move #" + Decimal.Show(m) + "(" + Decimal.Show(c) + "," + Decimal.Show(r) + ")"
  }

  /** Label `l` names move number `m` and the square on which it turned the
      board of `prev` into the board of `next`. */
  ghost predicate DescribesMove(l: Label, m: nat, prev: Entry, next: Entry)
  {
    l.GoToMove? && l.move == m && m > 0 && l.row < 3 && l.column < 3 &&
    prev.squares[SquareNumber(l.row, l.column)] == Empty &&
    next.squares == prev.squares[SquareNumber(l.row, l.column) := Marked(PlayerAt(m - 1))]
  }

  /** In a legal history the start entry, and only it, is labelled "Go to game
      start"; every other label carries its own index and the square whose
      marking produced that entry from the one before. */
  lemma LabelsDescribeMoves(h: seq<Entry>)
    requires LegalHistory(h)
    ensures forall m :: 0 <= m < |h| ==> (MakeList(h)[m] == GameStart <==> m == 0)
    ensures forall m :: 0 < m < |h| ==> DescribesMove(MakeList(h)[m], m, h[m - 1], h[m])
  {
    var labels := MakeList(h);
    assert labels[0] == GameStart;
    forall m | 0 < m < |h|
      ensures h[m].location.Some? && DescribesMove(labels[m], m, h[m - 1], h[m])
    {
      var k := m - 1;
      assert Follows(h[k], h[k + 1], k);
    }
  }

  /** A label whose square lies on the board. */
  predicate OnBoard(l: Label)
  {
    l.GoToMove? ==> l.column < 3 && l.row < 3
  }

  /** Labels of squares on the board have different texts. */
  lemma TextInjective(l1: Label, l2: Label)
    requires OnBoard(l1) && OnBoard(l2)
    ensures Text(l1) == Text(l2) ==> l1 == l2
  {
    if Text(l1) == Text(l2) && l1.GoToMove? && l2.GoToMove? {
      var s := Text(l1);
      var d1, d2 := Decimal.Show(l1.move), Decimal.Show(l2.move);
      assert |Decimal.Show(l1.column)| == 1 && |Decimal.Show(l1.row)| == 1;
      assert |Decimal.Show(l2.column)| == 1 && |Decimal.Show(l2.row)| == 1;
      assert |d1| == |d2|;
      assert s[12..12 + |d1|] == d1;
      assert Text(l2)[12..12 + |d2|] == d2;
      Decimal.ShowInjective(l1.move, l2.move);
      assert s[|s| - 4] == Decimal.Show(l1.column)[0] && Text(l2)[|s| - 4] == Decimal.Show(l2.column)[0];
      assert s[|s| - 2] == Decimal.Show(l1.row)[0] && Text(l2)[|s| - 2] == Decimal.Show(l2.row)[0];
      assert Decimal.Show(l1.column) == Decimal.Show(l2.column);
      assert Decimal.Show(l1.row) == Decimal.Show(l2.row);
      Decimal.ShowInjective(l1.column, l2.column);
      Decimal.ShowInjective(l1.row, l2.row);
    }
  }

  /** Every button of the move list of a legal history has its own text. */
  lemma MoveListDistinct(h: seq<Entry>, m1: nat, m2: nat)
    requires LegalHistory(h) && m1 < m2 < |h|
    ensures Text(MakeList(h)[m1]) != Text(MakeList(h)[m2])
  {
    LabelsDescribeMoves(h);
    assert DescribesMove(MakeList(h)[m2], m2, h[m2 - 1], h[m2]);
    assert m1 > 0 ==> DescribesMove(MakeList(h)[m1], m1, h[m1 - 1], h[m1]);
    TextInjective(MakeList(h)[m1], MakeList(h)[m2]);
  }

  /** The sequence in the opposite order. */
  function Reversed<T>(s: seq<T>): (r: seq<T>)
    ensures |r| == |s|
    ensures forall k :: 0 <= k < |s| ==> r[k] == s[|s| - 1 - k]
  {
    if s == [] then [] else Reversed(s[1..]) + [s[0]]
  }

  /** The move list as displayed: reversed when `reverse` is set. */
  function Displayed<T>(labels: seq<T>, reverse: bool): (r: seq<T>)
    ensures |r| == |labels|
  {
    if reverse then Reversed(labels) else labels
  }

  /** Flipping the order shows exactly the reverse of what was shown before. */
  lemma DisplayedSwitch<T>(labels: seq<T>, reverse: bool)
    ensures Displayed(labels, !reverse) == Reversed(Displayed(labels, reverse))
    ensures |Displayed(labels, reverse)| == |labels|
  {
    var r := Reversed(labels);
    assert Reversed(r) == labels;
  }

  class Game {
    var history: seq<Entry>
    var stepNumber: nat
    var xIsNext: bool
    var reverse: bool

    /** The history is a legal play, the step points into it and the turn
        follows the parity of the step. */
    ghost predicate Valid()
      reads this
    {
      LegalHistory(history) && stepNumber < |history| && xIsNext == (stepNumber % 2 == 0)
    }

    constructor ()
      ensures Valid()
      ensures history == [StartEntry] && stepNumber == 0 && xIsNext && !reverse
    {
      history := [StartEntry];
      stepNumber := 0;
      xIsNext := true;
      reverse := false;
    }

    /** The board at the step being shown. */
    function CurrentBoard(): Board
      reads this
      requires stepNumber < |history|
    {
      history[stepNumber].squares
    }

    method HandleSwitch()
      requires Valid()
      modifies this
      ensures Valid()
      ensures reverse == !old(reverse)
      ensures history == old(history) && stepNumber == old(stepNumber) && xIsNext == old(xIsNext)
      ensures Moves() == Reversed(old(Moves()))
    {
      reverse := !reverse;
      DisplayedSwitch(MakeList(history), old(reverse));
    }

    method JumpTo(step: nat)
      requires Valid()
      requires step < |history|
      modifies this
      ensures Valid()
      ensures stepNumber == step && xIsNext == (step % 2 == 0)
      ensures history == old(history) && reverse == old(reverse)
    {
      stepNumber := step;
      xIsNext := step % 2 == 0;
    }

    method HandleClick(i: nat)
      requires Valid()
      requires i < 9
      modifies this
      ensures Valid()
      ensures reverse == old(reverse)
      ensures old(Winner(CurrentBoard()).Some? || CurrentBoard()[i] != Empty) ==>
        history == old(history) && stepNumber == old(stepNumber) && xIsNext == old(xIsNext)
      ensures old(Winner(CurrentBoard()).None? && CurrentBoard()[i] == Empty) ==>
        history == old(history[..stepNumber + 1]) +
                   [Entry(old(CurrentBoard())[i := Mark(old(xIsNext))], Some(Location(i / 3, i % 3)))] &&
        stepNumber == old(stepNumber) + 1 &&
        xIsNext == !old(xIsNext)
    {
      var past := history[..stepNumber + 1];
      var current := past[|past| - 1];
      var squares := new Cell[9](k requires 0 <= k < 9 => current.squares[k]);
      assert squares[..] == current.squares == CurrentBoard();
      var winner := CalculateWinner(squares[..]);
      if winner.Some? || squares[i] != Empty {
        return;
      }
      squares[i] := Mark(xIsNext);
      var next := Entry(squares[..], Some(Location(i / 3, i % 3)));
      assert next.squares == current.squares[i := Mark(xIsNext)];
      SquareNumberLocation(i, 0, 0);
      assert Mark(xIsNext) == Marked(PlayerAt(stepNumber));
      LegalPrefix(history, stepNumber + 1);
      assert Follows(past[|past| - 1], next, |past| - 1);
      LegalExtend(past, next);
      history := past + [next];
      stepNumber := |past|;
      xIsNext := !xIsNext;
    }

    /** The status line of the rendered game. */
    function Status(): (s: Status)
      reads this
      requires Valid()
      ensures s == StatusOf(CurrentBoard(), xIsNext)
      ensures s.NextPlayer? ==> s.player == PlayerAt(stepNumber)
      ensures s.Won? ==> 0 < stepNumber == |history| - 1 && s.winner == PlayerAt(stepNumber - 1)
    {
      if Winner(CurrentBoard()).Some? then
        LastMoverWins(history, stepNumber);
        StatusOf(CurrentBoard(), xIsNext)
      else
        StatusOf(CurrentBoard(), xIsNext)
    }

    /** The move list in the order it is displayed. */
    function Moves(): seq<Label>
      reads this
    {
      Displayed(MakeList(history), reverse)
    }
  }
}
