# Tic-tac-toe game engine, modelled in Dafny

This project models the game logic of a browser tic-tac-toe game: the `Game`
component's state and handlers and the pure `calculateWinner` evaluator. The
game keeps a history of board snapshots. Each snapshot records the location
of the move that produced it. The game also tracks the step being shown,
whose turn it is, and whether the move list is displayed in reverse.

- `winevaluator.dfy` (module `WinEvaluator`) has the cells, the 9-cell board,
  the eight lines in their fixed order and `calculateWinner`. It gives both a
  recursive function (`Winner`) and the program's loop with early return
  (`CalculateWinner`). Both are proved equal to a declarative statement: the
  result is the first complete line, or none.
- `gameengine.dfy` (module `GameEngine`) has the `Game` class. Its fields are
  `history`, `stepNumber`, `xIsNext` and `reverse`. Its methods are
  `HandleClick`, `JumpTo` and `HandleSwitch`. `HandleClick` copies the current
  board into a fresh array, marks the square in place and appends the
  snapshot.
  - The object invariant `Valid()` says three things. The history is a legal
    play from the empty board (`LegalHistory`). The step points into the
    history. `xIsNext` is the parity of the step. The program stores
    `xIsNext` as a field and sets it in `jumpTo` and `handleClick`
    (src/index.js:99,122), so the model keeps the field and proves the
    parity relation as part of the invariant.
  - The module also has the queries the rendering derives: the status
    (winner, draw, next player), the winning squares, and the move-list
    labels in history order or reversed. `Text` prints `#m(c,r)` with no
    space, as src/index.js:82 does.
- `decimal.dfy` (module `Decimal`) holds the base-ten rendering used in
  labels, which stands for `toString(10)`, and its inverse.
- `scenarios.dfy` (module `Scenarios`) has two client methods. They drive a
  `Game` through the handlers the way the rendering does: a branch after
  time travel, and a drawn game.

## Model

| member | source | states |
|---|---|---|
| `WinEvaluator.OutcomeOf` | src/index.js:184-187 | the reported winning set is the line itself, and all three of its squares hold the reported symbol |
| `WinEvaluator.WinnerFrom` | src/index.js:181-190 | a reported outcome names one of the lines tried from the given position onwards, that line is complete, and the winner is the mark on it |
| `WinEvaluator.WinnerFromCharacterized` | src/index.js:181-190 | the search from position `from` finds nothing exactly when no later line is complete, and otherwise returns the first complete line from there |
| `WinEvaluator.WinnerCharacterized` | src/index.js:170-191 | calculateWinner is null exactly when none of the 8 lines is complete; it is non-null exactly when some line is the first complete one in the listed order; it then returns that line's symbol and that line |
| `WinEvaluator.CalculateWinner` | src/index.js:170-191 | the loop over the lines with early return gives the same result as the declarative definition: null when no line is complete, otherwise the first complete line and its symbol |
| `WinEvaluator.SquareNumberLocation` | src/index.js:34 | the row `i/3` and column `i%3` recorded for a click on square i map back to i through the board's numbering `col+row*3`; for row and column below 3 the numbering lies in 0..8 and inverts to the same row and column |
| `WinEvaluator.TopRowWinner` | src/index.js:170-191 | the board X,X,X,O,O,_,_,_,_ is won by X on line [0,1,2] |
| `Decimal.Show` | src/index.js:82 | the base-ten numeral of a label number is a non-empty string of digits with no leading zero, and has one digit exactly for numbers below 10 |
| `Decimal.ValueOfShow` | src/index.js:82 | reading the numeral back gives the number |
| `Decimal.ShowInjective` | src/index.js:82 | different numbers have different numerals |
| `GameEngine.Mark` | src/index.js:112 | the placed mark is never empty and is X exactly when `xIsNext` holds |
| `GameEngine.LegalPrefix` | src/index.js:104 | cutting a legal history after any entry leaves a legal history, which is why branching after time travel keeps the invariant |
| `GameEngine.LegalExtend` | src/index.js:114-120 | appending one entry that follows the last by a legal click keeps the history legal |
| `GameEngine.MarksAtStep` | src/index.js:112-122 | after k moves the board holds 9-k empty squares, (k+1)/2 X's and k/2 O's: X starts and the turns alternate |
| `GameEngine.MarkOneSquare` | src/index.js:112 | marking an empty square removes one empty cell and adds one mark of that player, leaving the other player's count alone |
| `GameEngine.HistoryBounded` | src/index.js:103-124 | the history never has more than ten entries |
| `GameEngine.FullBoardAtStepNine` | src/index.js:136 | a board with no empty square, the condition for a draw, occurs only at step 9 |
| `GameEngine.UndecidedBeforeLast` | src/index.js:108-110 | every entry except the last has no winner, and the start board has none: no move is accepted on a won board |
| `GameEngine.MarkOutsideLine` | src/index.js:183 | marking a square outside a line does not change whether that line is complete |
| `GameEngine.LastMoverWins` | src/index.js:108-112 | a won board is the last entry of the history and is not the start; the winner is the player who made the last move |
| `GameEngine.StatusOf` | src/index.js:129-140 | the status is Winner s exactly when some line is complete, with s the symbol of the first complete line; it is Draw exactly when no line is complete and no square is empty; otherwise it is Next player, naming X exactly when `xIsNext` |
| `GameEngine.WinningSet` | src/index.js:132-135 | the highlighted squares are empty exactly when there is no winner; otherwise they are the first complete line in the listed order, which is one of the 8 lines, and every highlighted square holds the winner's mark |
| `GameEngine.LabelsDescribeMoves` | src/index.js:79-94 | in a legal history exactly entry 0 is labelled "Go to game start"; label m > 0 carries m and the column and row of the on-board square whose marking turned entry m-1 into entry m |
| `GameEngine.TextInjective` | src/index.js:81-83 | two labels whose squares are on the board have equal button texts only if they are the same label |
| `GameEngine.MoveListDistinct` | src/index.js:79-94 | no two buttons of the move list of a legal history have the same text |
| `GameEngine.Reversed` | src/index.js:155 | `moves.reverse()` keeps the length and puts element k at position length-1-k |
| `GameEngine.DisplayedSwitch` | src/index.js:73-155 | flipping `reverse` shows exactly the reverse of the list shown before, and both lists have one label per history entry |
| `WinEvaluator.SquareNumber` | src/index.js:34 | the board's numbering `col+row*3` of square (row, col); it lies in 0..8 for row and column below 3; the definition SquareNumberLocation is about |
| `WinEvaluator.Completes` | src/index.js:183 | the test of one line: its three cells are non-empty and equal; the definition the lemmas about calculateWinner are stated with |
| `WinEvaluator.Winner` | src/index.js:170-191 | the value of calculateWinner; a reported line is one of the 8 lines, it is complete, and it holds the reported symbol; the definition WinnerCharacterized is about |
| `GameEngine.PlayerAt` | src/index.js:99-112 | the player of move number k, which is the mark `xIsNext ? 'X' : 'O'` for `xIsNext` set to the parity of k; the definition the history invariant and MarksAtStep are about |
| `GameEngine.LabelOf` | src/index.js:81-83 | the label of one entry: "Go to game start" when it has no location, otherwise its move number, column and row; the definition LabelsDescribeMoves is about |
| `GameEngine.MakeList` | src/index.js:79-94 | one label per history entry, in history order; the definition LabelsDescribeMoves and MoveListDistinct are about |
| `GameEngine.Text` | src/index.js:81-83 | the text of a button, `Go to move #m(c,r)` or `Go to game start`; the definition TextInjective is about |
| `GameEngine.Displayed` | src/index.js:155 | the move list, reversed when `reverse` is set, with one label per entry; the definition DisplayedSwitch is about |
| `GameEngine.Game.CurrentBoard` | src/index.js:128 | the board at the step being shown; the definition the HandleClick and Status contracts are stated with |
| `GameEngine.Game.Moves` | src/index.js:142-155 | the move list of the history in the order it is displayed; the definition the HandleSwitch contract is stated with |
| `GameEngine.Game.constructor` | src/index.js:57-71 | the game starts with one entry (the empty board, no location), step 0, X to move and ascending order, and the invariant holds |
| `GameEngine.Game.HandleSwitch` | src/index.js:73-77 | only `reverse` flips; the displayed move list becomes the reverse of the old one, and the invariant is kept |
| `GameEngine.Game.JumpTo` | src/index.js:96-101 | the step becomes the argument and `xIsNext` is its parity; the history and the order are untouched and the invariant is kept |
| `GameEngine.Game.HandleClick` | src/index.js:103-124 | on a board with a winner or an occupied square nothing changes; otherwise the history becomes its prefix up to the current step plus one entry; that entry's board is the current board with square i marked for the player to move, and its location is row i/3 and column i%3; the step is incremented to the new last index, the turn flips, and the invariant is kept |
| `GameEngine.Game.Status` | src/index.js:126-140 | the rendered status is that of the current board; the next player named is the one the step's parity gives; a winner only appears on the last entry, and it is the player who moved last |
| `Scenarios.BranchAfterTimeTravel` | src/index.js:96-124 | playing 4,0,5,3,2, jumping to step 2, then clicking 6 twice yields a history of 4 entries, step 3 and O to move |
| `Scenarios.DrawGame` | src/index.js:108-140 | playing 0,1,2,4,3,5,7,6,8 fills the board with no winner; the status is Draw and any further click leaves the history at 10 entries and the step at 9 |

## Left out

- The `Square` and `Board` components and the JSX markup only present the state. Their one piece of logic, the square numbering, is `SquareNumber`.
- The `ReactDOM.render` mount and the CSS import are DOM work.
- Styling is left out: red text on the winning squares and bold on the current step. The membership test behind the red text is `WinningSet`.
- React's asynchronous `setState` batching is not modelled. Each handler is an atomic update of the fields.
- `toString(10)` is modelled only for natural numbers, through `Decimal.Show`. The labels only print move numbers, rows and columns.
- The status line's literal strings ("Winner X", "Draw", "Next player: O") are modelled as the datatype `Status` rather than as text.
- The button that toggles the order is modelled only as `HandleSwitch`. Its caption ("Ascending"/"Descending") is left out.
- `JumpTo` gets no InvalidArgument error path for an out-of-range step. The code has no such check, and the only caller passes existing indices, so the range is a precondition.
- There is no new-game or reset operation: the code has none.
