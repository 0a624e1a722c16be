/** Two games played through the handlers, as a rendering client would
    drive them, and what the contracts of the handlers let a client conclude. */
module Scenarios {
  import opened WinEvaluator
  import opened GameEngine

  /** Play 4, 0, 5, 3, 2, travel back to step 2 and play 6 there: the moves
      after step 2 are dropped, and clicking 6 again is ignored. */
  method BranchAfterTimeTravel() returns (length: nat, step: nat, s: Status)
    ensures length == 4 && step == 3 && s == NextPlayer(O)
  {
    var g := new Game();
    g.HandleClick(4);
    assert g.CurrentBoard() == [Empty, Empty, Empty, Empty, Marked(X), Empty, Empty, Empty, Empty];
    g.HandleClick(0);
    assert g.CurrentBoard() == [Marked(O), Empty, Empty, Empty, Marked(X), Empty, Empty, Empty, Empty];
    g.HandleClick(5);
    assert g.CurrentBoard() == [Marked(O), Empty, Empty, Empty, Marked(X), Marked(X), Empty, Empty, Empty];
    g.HandleClick(3);
    assert g.CurrentBoard() == [Marked(O), Empty, Empty, Marked(O), Marked(X), Marked(X), Empty, Empty, Empty];
    g.HandleClick(2);
    assert |g.history| == 6;
    g.JumpTo(2);
    assert g.CurrentBoard() == [Marked(O), Empty, Empty, Empty, Marked(X), Empty, Empty, Empty, Empty];
    g.HandleClick(6);
    assert g.CurrentBoard() == [Marked(O), Empty, Empty, Empty, Marked(X), Empty, Marked(X), Empty, Empty];
    g.HandleClick(6);
    length, step, s := |g.history|, g.stepNumber, g.Status();
  }

  /** One accepted click at the head of the history, as HandleClick's
      contract describes it to a client. */
  method Play(g: Game, i: nat, before: Board, k: nat)
    requires g.Valid() && i < 9
    requires g.stepNumber == k && |g.history| == k + 1 && g.CurrentBoard() == before
    requires Winner(before).None? && before[i] == Empty
    modifies g
    ensures g.Valid() && g.stepNumber == k + 1 && |g.history| == k + 2
    ensures g.CurrentBoard() == before[i := Marked(PlayerAt(k))]
  {
    g.HandleClick(i);
  }

  /** The first four moves of the drawn game: 0, 1, 2, 4. */
  method DrawOpening(g: Game)
    requires g.Valid() && g.history == [StartEntry] && g.stepNumber == 0
    modifies g
    ensures g.Valid() && g.stepNumber == 4 && |g.history| == 5
    ensures g.CurrentBoard() == [Marked(X), Marked(O), Marked(X), Empty, Marked(O), Empty, Empty, Empty, Empty]
  {
    var b := EmptyBoard;
    Play(g, 0, b, 0);
    b := [Marked(X), Empty, Empty, Empty, Empty, Empty, Empty, Empty, Empty];
    Play(g, 1, b, 1);
    b := [Marked(X), Marked(O), Empty, Empty, Empty, Empty, Empty, Empty, Empty];
    Play(g, 2, b, 2);
    b := [Marked(X), Marked(O), Marked(X), Empty, Empty, Empty, Empty, Empty, Empty];
    Play(g, 4, b, 3);
  }

  /** The last five moves of the drawn game: 3, 5, 7, 6, 8. */
  method DrawEnding(g: Game)
    requires g.Valid() && g.stepNumber == 4 && |g.history| == 5
    requires g.CurrentBoard() == [Marked(X), Marked(O), Marked(X), Empty, Marked(O), Empty, Empty, Empty, Empty]
    modifies g
    ensures g.Valid() && g.stepNumber == 9 && |g.history| == 10
    ensures g.CurrentBoard() == [Marked(X), Marked(O), Marked(X), Marked(X), Marked(O), Marked(O), Marked(O), Marked(X), Marked(X)]
  {
    var b := [Marked(X), Marked(O), Marked(X), Empty, Marked(O), Empty, Empty, Empty, Empty];
    Play(g, 3, b, 4);
    b := [Marked(X), Marked(O), Marked(X), Marked(X), Marked(O), Empty, Empty, Empty, Empty];
    Play(g, 5, b, 5);
    b := [Marked(X), Marked(O), Marked(X), Marked(X), Marked(O), Marked(O), Empty, Empty, Empty];
    Play(g, 7, b, 6);
    b := [Marked(X), Marked(O), Marked(X), Marked(X), Marked(O), Marked(O), Empty, Marked(X), Empty];
    Play(g, 6, b, 7);
    b := [Marked(X), Marked(O), Marked(X), Marked(X), Marked(O), Marked(O), Marked(O), Marked(X), Empty];
    Play(g, 8, b, 8);
  }

  /** Play 0, 1, 2, 4, 3, 5, 7, 6, 8: the board fills with no complete line,
      the status is a draw and a further click on any square changes nothing. */
  method DrawGame(i: nat) returns (s: Status, length: nat, step: nat)
    requires i < 9
    ensures s == Draw && length == 10 && step == 9
  {
    var g := new Game();
    DrawOpening(g);
    DrawEnding(g);
    ghost var full := g.CurrentBoard();
    assert Winner(full).None? && Empty !in full;
    g.HandleClick(i);
    assert g.CurrentBoard() == full;
    s, length, step := g.Status(), |g.history|, g.stepNumber;
  }
}
