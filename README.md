# Crypto-Sudoku: a verified model of the puzzle engine and game logic

This project models, in Dafny, the part of the Crypto-Sudoku browser game that
has algorithmic content:

- **the puzzle engine** (`src/utils/sudoku.js`, module `Sudoku`): the test that a
  digit may go in a cell (row, column and 3×3 box), the in-place Fisher–Yates
  shuffle, the row-major backtracking solver that places and undoes digits in a
  9×9 board held in place, the carver that clears 30, 45 or 55 cells of a
  copy of the solution, and the generator that chains them;
- **the game session** (`src/components/Game.jsx`, module `Game`, class
  `Session`): the board, hidden solution, selected cell, per-cell status keyed
  `"row-col"`, mistake counter and running flag, with the number-input,
  keyboard, win-check, game-over, exit and initialise handlers. The rule of
  `src/components/Board.jsx` that only an empty cell can be selected is the
  `SelectCell` method;
- **the points formula** (`src/components/modals/TestWinModal.jsx` and
  `src/components/PointsDisplay.jsx`, modules `TestWinModal` and
  `PointsDisplay`, with the constants they share in `Scoring`).

Boards are `array2<int>` of 9×9 cells, 0 meaning empty. Every `Math.random()`
call is a supplied draw in [0, 1), and `Pick(draw, n)` is
`Math.floor(draw * n)` as the source writes it. The shuffle takes one draw per
swap. The carver takes two draws (row, then column) per pick.

Main results:

- `IsValidMove` returns true exactly when the digit is absent from the row,
  the column and the box.
- The shuffle yields a permutation of its input.
- `Solve` is sound. On success every cell from its start cell onward is
  filled, no row, column or box repeats a digit, and pre-filled cells are
  untouched. On failure the board is exactly as it was on entry.
  `SolvedRowHasEveryDigit`, `SolvedColHasEveryDigit` and
  `SolvedBoxHasEveryDigit` show that such a grid has every digit in every
  row, column and box.
- Carving never mutates the solution. The puzzle is a sub-assignment of the
  solution. A completed carve of a full board leaves exactly 30/45/55 empty
  cells, and none for an unknown difficulty.
- In the session, a wrong digit is never written to the board. So the board
  stays a sub-assignment of the solution. Cells filled when the puzzle was
  installed never change. Ten mistakes, or a board equal to the solution, stop
  the game, and an inactive game ignores input.
- The live preview equals the contract formula
  `max(0, (7200 - time) - 100 * mistakes)` on every whole second
  (`PointsAreContractPoints`). The test modal's estimate equals it for time
  1..7200 and at most 9 mistakes (`EstimateIsContractPoints`), and is 0
  outside that range. Both are never negative. The live preview never rises
  with time or mistakes. The estimate never rises with either while time
  stays in 1..7200 and mistakes at most 9. Because it is 0 outside that
  range, it is 0 at time 0 but 7199 at time 1.

Four behaviours of the code are worth stating outright:

- The digit order is shuffled once per `solveSudoku` call
  (src/utils/sudoku.js:10), and every empty cell tries the digits in that
  same order.
- A wrong digit is not written to the board. It only marks the cell
  `'wrong'` and counts a mistake (src/components/Game.jsx:342-354).
- No operation refuses input on a fixed cell. Protection comes only from
  selection (src/components/Board.jsx:33): a cell can be selected only while
  it is empty. A cell that the player filled correctly stays selected and can
  be cleared or re-entered.
- An unknown difficulty clears no cell at all (src/utils/sudoku.js:36-43).

## Model

| member | source | states |
|---|---|---|
| `Sudoku.BoxOrigin` | src/utils/sudoku.js:66-67 | the box origin is the multiple of 3 at or below the index, and the box it starts lies within 0..8 |
| `Sudoku.SameBoxIsBoxSpan` | src/utils/sudoku.js:66-72 | a cell shares the 3×3 box of (row, col) exactly when it lies in the 3×3 span the nested loop scans |
| `Sudoku.IsValidMove` | src/utils/sudoku.js:54-75 | returns true iff `num` is nowhere in the row, nowhere in the column and nowhere in the box of (row, col) |
| `Sudoku.Pick` | src/utils/sudoku.js:79 | `Math.floor(Math.random() * n)` is an index in 0..n-1, so the swap partner j is at most i |
| `Sudoku.SwapPermutes` | src/utils/sudoku.js:80 | exchanging two elements keeps the length and the multiset of the array |
| `Sudoku.SwapElements` | src/utils/sudoku.js:80 | the destructuring swap exchanges exactly positions i and j of the array |
| `Sudoku.ShuffleFromPermutes` | src/utils/sudoku.js:77-83 | the Fisher–Yates order has the input's length and multiset: it is a permutation |
| `Sudoku.ShuffleArray` | src/utils/sudoku.js:77-83 | shuffles the array in place into the Fisher–Yates order of its old contents, and so into a permutation of them |
| `Sudoku.PermutedDigits` | src/utils/sudoku.js:10 | a permutation of the digits 1..9 holds only digits 1..9, so the solver only places digits |
| `Sudoku.Solve` | src/utils/sudoku.js:12-28 | keeps cells in 0..9 and conflict-free, never changes a filled cell or one before (row, col); on true every cell from (row, col) on is filled; on false the whole board is as on entry |
| `Sudoku.Place` | src/utils/sudoku.js:21-22 | writing a legal digit into an empty cell changes only that cell and keeps the board free of conflicts |
| `Sudoku.EmptyGrid` | src/utils/sudoku.js:3 | the starting board is a fresh 9×9 grid of zeros |
| `Sudoku.CopyGrid` | src/utils/sudoku.js:31 | the JSON round trip yields a fresh board with the same cells |
| `Sudoku.SolvedCopy` | src/utils/sudoku.js:31 | a copy of a solved board is itself solved |
| `Sudoku.SolveSudoku` | src/utils/sudoku.js:9-32 | returns a fresh copy of the searched board that keeps its filled cells and is either a solved grid or the input unchanged |
| `Sudoku.SolvedRowHasEveryDigit` | src/utils/sudoku.js:20-27 | a filled conflict-free grid contains every digit 1..9 in every row (exactly once, by the absence of conflicts) |
| `Sudoku.SolvedColHasEveryDigit` | src/utils/sudoku.js:20-27 | a filled conflict-free grid contains every digit 1..9 in every column |
| `Sudoku.SolvedBoxHasEveryDigit` | src/utils/sudoku.js:20-27 | a filled conflict-free grid contains every digit 1..9 in every 3×3 box |
| `Sudoku.CellsToRemove` | src/utils/sudoku.js:36-40 | the lookup is defined exactly for easy, medium and hard, with counts between 30 and 55 |
| `Sudoku.DifficultyCounts` | src/utils/sudoku.js:36-43 | easy clears 30, medium 45, hard 55, and any other difficulty clears none |
| `Sudoku.ClearedCells` | src/utils/sudoku.js:46-49 | clearing a set of filled cells keeps a sub-assignment and adds exactly that many empty cells |
| `Sudoku.CreatePuzzle` | src/utils/sudoku.js:34-52 | a fresh puzzle that is a sub-assignment of the untouched solution; when carving completes, exactly `CarveCount(difficulty)` more cells are empty; an unknown difficulty always completes |
| `Sudoku.FullHasNoEmptyCells` | src/utils/sudoku.js:42-51 | a full board has no empty cell, so carving it leaves exactly the carve count empty |
| `Sudoku.GenerateSudoku` | src/utils/sudoku.js:2-7 | returns a puzzle and a distinct solution, the puzzle a sub-assignment of the solution, the solution solved (or, if the search failed, empty); a solved, fully carved puzzle has exactly `CarveCount(difficulty)` empty cells; difficulty defaults to medium |
| `Game.CellKey` | src/components/Game.jsx:317 | the status key of a cell is the three characters row digit, '-', column digit |
| `Game.CellKeyInjective` | src/components/Game.jsx:317 | two cells share a status key only if they are the same cell |
| `Game.LeadingDigits` | src/components/Game.jsx:371 | `parseInt` of a key starting with 1..9 is positive, and a lone digit parses as itself |
| `Game.DigitKeyRange` | src/components/Game.jsx:370 | the string test `key >= '1' && key <= '9'` holds exactly for keys starting with 1..8 and for "9" |
| `Game.KeyNumber` | src/components/Game.jsx:367-375 | a one-character key gives a nonzero number iff it is '1'..'9', and then that digit; a longer key passing the range test gives some number (the body takes its leading digits, as `parseInt` does); Backspace and Delete give 0 and are the only keys that do; keys failing the range test, other than Backspace and Delete, give nothing |
| `Game.WonIffNoEmptyCell` | src/components/Game.jsx:377-384 | while the board is a sub-assignment of a full solution, it matches the solution iff no cell is empty |
| `Game.Session.constructor` | src/components/Game.jsx:82-95 | the initial state: empty board, no solution, no selection or status, zero mistakes, game inactive, difficulty medium |
| `Game.Session.SelectCell` | src/components/Board.jsx:33 | a click selects the cell only if it is empty, so a fixed cell is never selected |
| `Game.Session.GameWon` | src/components/Game.jsx:386-391 | the game stops and the win modal is shown |
| `Game.Session.GameOver` | src/components/Game.jsx:393-397 | the game stops and the game-over modal is shown |
| `Game.Session.ConfirmSurrender` | src/components/Game.jsx:268-274 | surrendering stops the game as lost and shows the game-over modal; nothing else changes and the session invariant is kept |
| `Game.Session.CheckWin` | src/components/Game.jsx:377-384 | declares the win (game inactive, win shown) iff all 81 cells equal the solution, and otherwise changes nothing |
| `Game.Session.HandleNumberInput` | src/components/Game.jsx:313-365 | nothing changes without a selection or a running game; 0 clears the cell and its status entry; the solution's digit is written, marked correct and may win; any other number leaves the board, marks wrong, adds exactly one mistake and stops the game at 10; only the selected cell changes, fixed cells never do, and the session invariant (board a sub-assignment of the solution) holds |
| `Game.Session.HandleKeyboardInput` | src/components/Game.jsx:367-375 | an inactive game or an unrecognised key changes nothing; otherwise the effect is that of number input with the key's number |
| `Game.Session.ExitGame` | src/components/Game.jsx:184-194 | from any state, the board becomes all zeros, solution, selection and status are cleared, mistakes and timer are 0, and the game is neither started nor active |
| `Game.Session.InitializeGame` | src/components/Game.jsx:238-252 | from any state, installs a fresh generated puzzle and solution, the puzzle a sub-assignment of the solution, with mistakes 0, timer 0, no selection or status, the game active, and exactly the puzzle's filled cells recorded as fixed |
| `TestWinModal.EstimatedPoints` | src/components/modals/TestWinModal.jsx:22-38 | never negative; 0 outside time 1..7200 and mistakes ≤ 9; in range positive exactly when the penalty is below the time points, and never above 7200 - time for non-negative mistakes |
| `TestWinModal.EstimateIsContractPoints` | src/components/modals/TestWinModal.jsx:23-34 | in range the estimate equals the contract's `max(0, (7200 - time) - 100*mistakes)` |
| `TestWinModal.EstimateFallsWithTime` | src/components/modals/TestWinModal.jsx:22-38 | within the scoring range, a later time never raises the estimate |
| `TestWinModal.EstimateFallsWithMistakes` | src/components/modals/TestWinModal.jsx:22-38 | within the scoring range, more mistakes never raise the estimate |
| `TestWinModal.TimeChange` | src/components/modals/TestWinModal.jsx:42-49 | a parsed value in 1..7200 is stored as its floor; NaN or any other value leaves the time unchanged |
| `TestWinModal.MistakesChange` | src/components/modals/TestWinModal.jsx:51-57 | a parsed integer in 0..9 is stored; NaN or any other value leaves the count unchanged |
| `TestWinModal.SettersKeepRange` | src/components/modals/TestWinModal.jsx:42-57 | starting in range, time and mistakes stay in the scoring range whatever is typed |
| `TestWinModal.ConfirmEnabled` | src/components/modals/TestWinModal.jsx:122 | the confirm button is enabled iff time is in 1..7200 and mistakes ≤ 9, the same range the estimate uses |
| `PointsDisplay.Points` | src/components/PointsDisplay.jsx:14-23 | never negative; 0 once the penalty reaches 7200 - timer; otherwise the floor of `7200 - timer - 100*mistakes` |
| `PointsDisplay.PointsFallWithMistakes` | src/components/PointsDisplay.jsx:14-23 | more mistakes never raise the points |
| `PointsDisplay.PointsFallWithTime` | src/components/PointsDisplay.jsx:14-23 | a later timer never raises the points |
| `PointsDisplay.PointsAreContractPoints` | src/components/PointsDisplay.jsx:15-22 | on whole seconds the preview equals `max(0, (7200 - time) - 100*mistakes)` |
| `PointsDisplay.PointsMatchEstimate` | src/components/PointsDisplay.jsx:14-23 | for time 1..7200 and mistakes 0..9 the preview equals the test modal's estimate |

## Left out

- Randomness: `Math.random()` itself is not modelled. Its values are the draw sequences passed in, each in [0, 1).
- Sudoku.CreatePuzzle: the source loops until the count is reached, which with real randomness almost surely happens. The model has a finite draw sequence and stops when it runs out. `carved` reports which happened, and the exact count is stated only when `carved` holds.
- Sudoku.GenerateSudoku: the search always succeeds from an empty 9×9 board, but this model does not prove it. The contract says "solved, or the empty board if the search failed".
- Sudoku.SolveSudoku: the same gap; its result is solved or the input unchanged.
- Sudoku.Solve: modelled only for boards whose cells are in 0..9 and have no conflicting filled cells. That covers the only caller, which passes an empty board.
- Timing: the game timer (`Date.now`, `requestAnimationFrame`) and the countdown are not modelled. The timer is only reset to 0.
- Game.Session.HandleNumberInput: the 400 ms `setTimeout` that removes a `'wrong'` status is not modelled, so a wrong status stays in the map.
- React state: updates are applied in order, as if each setter ran at once. Batching and StrictMode double calls are not modelled. The shallow copy `[...gameBoard]` shares its row arrays, so the write is modelled as an in-place write to the board.
- Game.Session.InitializeGame: the `isSignatureVerifying` and `showCountdown` flags are presentation state and are left out.
- The keyboard listener's registration and removal are not modelled.
- Audio, toasts, console logging, modal rendering and the other UI components are not modelled.
- The surrender confirmation dialog's flag (`showSurrenderConfirm`) is presentation state and is not modelled. So `handleSurrender` and `cancelSurrender`, which only open and close that dialog, have no counterpart. Their sound and toast are not modelled either. `confirmSurrender` is modelled as `ConfirmSurrender`.
- Wallet, network, NFT-balance, signing and score-submission code is not modelled. This includes the signature-driven `startGameWithSignature` and `startNewGameWithSignature`. It is calls into wallet and chain libraries and the network.
- TestWinModal.TimeChange and TestWinModal.MistakesChange take the result of `parseFloat`/`parseInt` (None for NaN). The text parsing itself is not modelled.
- Display formatting (`toLocaleString`, time formatting) is not modelled.
- The model makes no claim that a carved puzzle has a unique solution. The source makes none either.
