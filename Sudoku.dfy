/**
 * The puzzle engine of src/utils/sudoku.js: a 9×9 board held in place in an
 * array (0 marks an empty cell), the legality test for a digit, the in-place
 * Fisher–Yates shuffle, the row-major backtracking solver with undo, the
 * carver that clears a difficulty-dependent number of cells, and the
 * generator that composes them.
 *
 * Every call of `Math.random()` is replaced by one element of a supplied
 * sequence of draws, each in [0, 1).
 */
module Sudoku {
  import opened Wrappers

  /** The board shape the engine works on: 9 rows of 9 cells. */
  predicate IsGrid(b: array2<int>)
  {
    b.Length0 == 9 && b.Length1 == 9
  }

  predicate InRange(r: int, c: int)
  {
    0 <= r < 9 && 0 <= c < 9
  }

  /** `Math.floor(i / 3) * 3`: the first row (or column) of the box holding i. */
  function BoxOrigin(i: int): (o: int)
    requires 0 <= i < 9
    ensures o % 3 == 0 && o <= i < o + 3
    ensures 0 <= o && o + 2 < 9
  {
    (i / 3) * 3
  }

  /** Cells (r1, c1) and (r2, c2) lie in the same 3×3 box. */
  predicate SameBox(r1: int, c1: int, r2: int, c2: int)
  {
    r1 / 3 == r2 / 3 && c1 / 3 == c2 / 3
  }

  lemma SameBoxIsBoxSpan(r1: int, c1: int, r2: int, c2: int)
    requires InRange(r1, c1) && InRange(r2, c2)
    ensures SameBox(r1, c1, r2, c2) <==>
              BoxOrigin(r1) <= r2 < BoxOrigin(r1) + 3 && BoxOrigin(c1) <= c2 < BoxOrigin(c1) + 3
  {
  }

  // ---------------------------------------------------------------------------
  // Specification of board contents
  // ---------------------------------------------------------------------------

  ghost predicate RowHas(b: array2<int>, r: int, num: int)
    reads b
    requires IsGrid(b) && 0 <= r < 9
  {
    exists c :: 0 <= c < 9 && b[r, c] == num
  }

  ghost predicate ColHas(b: array2<int>, c: int, num: int)
    reads b
    requires IsGrid(b) && 0 <= c < 9
  {
    exists r :: 0 <= r < 9 && b[r, c] == num
  }

  ghost predicate BoxHas(b: array2<int>, r: int, c: int, num: int)
    reads b
    requires IsGrid(b) && InRange(r, c)
  {
    exists r2, c2 :: InRange(r2, c2) && SameBox(r, c, r2, c2) && b[r2, c2] == num
  }

  /** `num` may go at (r, c): it is nowhere in the row, the column or the box. */
  ghost predicate Legal(b: array2<int>, r: int, c: int, num: int)
    reads b
    requires IsGrid(b) && InRange(r, c)
  {
    !RowHas(b, r, num) && !ColHas(b, c, num) && !BoxHas(b, r, c, num)
  }

  /** Every cell is empty or a digit. */
  ghost predicate CellsInRange(b: array2<int>)
    reads b
    requires IsGrid(b)
  {
    forall r, c :: InRange(r, c) ==> 0 <= b[r, c] <= 9
  }

  /** Every cell holds a digit 1..9. */
  ghost predicate Full(b: array2<int>)
    reads b
    requires IsGrid(b)
  {
    forall r, c :: InRange(r, c) ==> 1 <= b[r, c] <= 9
  }

  /** No filled cell repeats its digit in its row, its column or its box. */
  ghost predicate NoConflicts(b: array2<int>)
    reads b
    requires IsGrid(b)
  {
    (forall r, c1, c2 :: InRange(r, c1) && InRange(r, c2) && c1 != c2 && b[r, c1] != 0 ==>
       b[r, c1] != b[r, c2]) &&
    (forall r1, r2, c :: InRange(r1, c) && InRange(r2, c) && r1 != r2 && b[r1, c] != 0 ==>
       b[r1, c] != b[r2, c]) &&
    (forall r1, c1, r2, c2 ::
       InRange(r1, c1) && InRange(r2, c2) && (r1 != r2 || c1 != c2) &&
       SameBox(r1, c1, r2, c2) && b[r1, c1] != 0 ==>
         b[r1, c1] != b[r2, c2])
  }

  /** A completed, rule-abiding grid. */
  ghost predicate Solved(b: array2<int>)
    reads b
    requires IsGrid(b)
  {
    Full(b) && NoConflicts(b)
  }

  /** Every filled cell of `puzzle` agrees with `solution`. */
  ghost predicate SubAssignment(puzzle: array2<int>, solution: array2<int>)
    reads puzzle, solution
    requires IsGrid(puzzle) && IsGrid(solution)
  {
    forall r, c :: InRange(r, c) && puzzle[r, c] != 0 ==> puzzle[r, c] == solution[r, c]
  }

  ghost predicate AllEmpty(b: array2<int>)
    reads b
    requires IsGrid(b)
  {
    forall r, c :: InRange(r, c) ==> b[r, c] == 0
  }

  ghost function EmptyCells(b: array2<int>): set<(int, int)>
    reads b
    requires IsGrid(b)
  {
    set r, c | 0 <= r < 9 && 0 <= c < 9 && b[r, c] == 0 :: (r, c)
  }

  /** The cells holding a digit: the givens of a puzzle. */
  ghost function FilledCells(b: array2<int>): (cells: set<(int, int)>)
    reads b
    requires IsGrid(b)
    ensures forall p :: p in cells <==> InRange(p.0, p.1) && b[p.0, p.1] != 0
  {
    set r, c | 0 <= r < 9 && 0 <= c < 9 && b[r, c] != 0 :: (r, c)
  }

  // ---------------------------------------------------------------------------
  // isValidMove
  // ---------------------------------------------------------------------------

  /** Scans the row, then the column, then the 3×3 box for `num`. */
  method IsValidMove(board: array2<int>, row: int, col: int, num: int) returns (valid: bool)
    requires IsGrid(board) && InRange(row, col)
    ensures valid <==> Legal(board, row, col, num)
  {
    for x := 0 to 9
      invariant forall c :: 0 <= c < x ==> board[row, c] != num
    {
      if board[row, x] == num {
        return false;
      }
    }
    for x := 0 to 9
      invariant forall r :: 0 <= r < x ==> board[r, col] != num
    {
      if board[x, col] == num {
        return false;
      }
    }
    var boxRow := BoxOrigin(row);
    var boxCol := BoxOrigin(col);
    for i := 0 to 3
      invariant forall r, c :: boxRow <= r < boxRow + i && boxCol <= c < boxCol + 3 ==> board[r, c] != num
    {
      var r := boxRow + i;
      for j := 0 to 3
        invariant forall r, c :: boxRow <= r < boxRow + i && boxCol <= c < boxCol + 3 ==> board[r, c] != num
        invariant forall c :: boxCol <= c < boxCol + j ==> board[r, c] != num
      {
        if board[boxRow + i, boxCol + j] == num {
          SameBoxIsBoxSpan(row, col, boxRow + i, boxCol + j);
          return false;
        }
      }
    }
    forall r, c | InRange(r, c) && SameBox(row, col, r, c)
      ensures board[r, c] != num
    {
      SameBoxIsBoxSpan(row, col, r, c);
    }
    return true;
  }

  // ---------------------------------------------------------------------------
  // Randomness and shuffleArray
  // ---------------------------------------------------------------------------

  /** Each draw is a value `Math.random()` can return. */
  predicate ValidDraws(draws: seq<real>)
  {
    forall k :: 0 <= k < |draws| ==> 0.0 <= draws[k] < 1.0
  }

  /** `Math.floor(draw * n)`: an index below n. */
  function Pick(draw: real, n: nat): (j: nat)
    requires 0.0 <= draw < 1.0 && n > 0
    ensures j < n
  {
    assert 0.0 <= draw * n as real < n as real;
    (draw * n as real).Floor
  }

  function Swap(s: seq<int>, i: nat, j: nat): seq<int>
    requires i < |s| && j < |s|
  {
    s[i := s[j]][j := s[i]]
  }

  /** Exchanging two positions keeps the length and the multiset of elements. */
  lemma SwapPermutes(s: seq<int>, i: nat, j: nat)
    requires i < |s| && j < |s|
    ensures |Swap(s, i, j)| == |s| && multiset(Swap(s, i, j)) == multiset(s)
  {
    var u := s[i := s[j]];
    assert multiset(u) == multiset(s) - multiset{s[i]} + multiset{s[j]};
    assert multiset(u[j := s[i]]) == multiset(u) - multiset{u[j]} + multiset{s[i]};
  }

  /**
   * The order Fisher–Yates leaves `s` in once positions i, i-1, ..., 1 have
   * each been swapped with a picked position at or below them. Position i
   * uses draw |s| - 1 - i, so a whole shuffle consumes the draws in order.
   */
  function ShuffleFrom(s: seq<int>, i: int, draws: seq<real>): seq<int>
    requires i < |s| && |s| <= |draws| + 1 && ValidDraws(draws)
    decreases i
  {
    if i <= 0 then s
    else ShuffleFrom(Swap(s, i, Pick(draws[|s| - 1 - i], i + 1)), i - 1, draws)
  }

  lemma {:induction false} ShuffleFromPermutes(s: seq<int>, i: int, draws: seq<real>)
    requires i < |s| && |s| <= |draws| + 1 && ValidDraws(draws)
    ensures |ShuffleFrom(s, i, draws)| == |s|
    ensures multiset(ShuffleFrom(s, i, draws)) == multiset(s)
    decreases i
  {
    if i > 0 {
      var j := Pick(draws[|s| - 1 - i], i + 1);
      var t := Swap(s, i, j);
      SwapPermutes(s, i, j);
      ShuffleFromPermutes(t, i - 1, draws);
    }
  }

  /** `[array[i], array[j]] = [array[j], array[i]]` */
  method SwapElements(a: array<int>, i: nat, j: nat)
    requires i < a.Length && j < a.Length
    modifies a
    ensures a[..] == Swap(old(a[..]), i, j)
  {
    a[i], a[j] := a[j], a[i];
  }

  /** shuffleArray: in-place Fisher–Yates, from the last index down to 1. */
  method ShuffleArray(a: array<int>, draws: seq<real>)
    requires a.Length <= |draws| + 1 && ValidDraws(draws)
    modifies a
    ensures a[..] == ShuffleFrom(old(a[..]), a.Length - 1, draws)
    ensures multiset(a[..]) == multiset(old(a[..]))
  {
    var i := a.Length - 1;
    while i > 0
      invariant -1 <= i < a.Length
      invariant ShuffleFrom(a[..], i, draws) == ShuffleFrom(old(a[..]), a.Length - 1, draws)
    {
      var j := Pick(draws[a.Length - 1 - i], i + 1);
      assert ShuffleFrom(a[..], i, draws) == ShuffleFrom(Swap(a[..], i, j), i - 1, draws);
      SwapElements(a, i, j);
      i := i - 1;
    }
    assert ShuffleFrom(a[..], i, draws) == a[..];
    ShuffleFromPermutes(old(a[..]), a.Length - 1, draws);
  }

  // ---------------------------------------------------------------------------
  // solveSudoku and its inner solve
  // ---------------------------------------------------------------------------

  /**
   * The inner `solve(row, col)`: fills the empty cells from (row, col) on in
   * row-major order, trying the digits of `numbers` in order at each empty
   * cell and undoing a placement whose continuation fails. Column 9 stands
   * for the start of the next row; row 9 is past the last cell.
   */
  method Solve(board: array2<int>, numbers: seq<int>, row: int, col: int) returns (solved: bool)
    requires IsGrid(board) && CellsInRange(board) && NoConflicts(board)
    requires forall k :: 0 <= k < |numbers| ==> 1 <= numbers[k] <= 9
    requires 0 <= row < 9 && 0 <= col <= 9
    modifies board
    decreases 81 - (row * 9 + col)
    ensures CellsInRange(board) && NoConflicts(board)
    // cells that were filled, and cells before (row, col), keep their values
    ensures forall r, c :: InRange(r, c) && (old(board[r, c]) != 0 || r * 9 + c < row * 9 + col) ==>
              board[r, c] == old(board[r, c])
    ensures solved ==> forall r, c :: InRange(r, c) && r * 9 + c >= row * 9 + col ==> board[r, c] != 0
    // a failed search leaves the board exactly as it found it
    ensures !solved ==> forall r, c :: InRange(r, c) ==> board[r, c] == old(board[r, c])
  {
    var r, c := row, col;
    if c == 9 {
      r, c := r + 1, 0;
    }
    if r == 9 {
      return true;
    }
    if board[r, c] != 0 {
      solved := Solve(board, numbers, r, c + 1);
      return;
    }
    for k := 0 to |numbers|
      invariant CellsInRange(board) && NoConflicts(board)
      invariant forall r', c' :: InRange(r', c') ==> board[r', c'] == old(board[r', c'])
    {
      var num := numbers[k];
      var valid := IsValidMove(board, r, c, num);
      if valid {
        Place(board, r, c, num);
        solved := Solve(board, numbers, r, c + 1);
        if solved {
          return;
        }
        board[r, c] := 0;
      }
    }
    return false;
  }

  /** `board[row][col] = num` for a legal digit in an empty cell: the board stays within the rules. */
  method Place(board: array2<int>, r: int, c: int, num: int)
    requires IsGrid(board) && InRange(r, c) && 1 <= num <= 9
    requires CellsInRange(board) && NoConflicts(board)
    requires board[r, c] == 0 && Legal(board, r, c, num)
    modifies board
    ensures CellsInRange(board) && NoConflicts(board) && board[r, c] == num
    ensures forall r', c' :: InRange(r', c') && (r' != r || c' != c) ==> board[r', c'] == old(board[r', c'])
  {
    board[r, c] := num;
  }

  /** A fresh 9x9 board of zeros, as `Array(9).fill().map(() => Array(9).fill(0))` builds. */
  method EmptyGrid() returns (b: array2<int>)
    ensures fresh(b) && IsGrid(b) && AllEmpty(b)
  {
    b := new int[9, 9]((r, c) => 0);
  }

  /** `JSON.parse(JSON.stringify(board))`: a fresh board with the same cells. */
  method CopyGrid(board: array2<int>) returns (copy: array2<int>)
    requires IsGrid(board)
    ensures fresh(copy) && IsGrid(copy)
    ensures forall r, c :: InRange(r, c) ==> copy[r, c] == board[r, c]
  {
    copy := new int[9, 9]((r, c) reads board => if InRange(r, c) then board[r, c] else 0);
  }

  /**
   * solveSudoku: shuffles the digits 1..9 once, runs the search from (0, 0)
   * on `board` in place, ignores whether it succeeded, and returns a copy.
   */
  method SolveSudoku(board: array2<int>, draws: seq<real>) returns (solution: array2<int>)
    requires IsGrid(board) && CellsInRange(board) && NoConflicts(board)
    requires 8 <= |draws| && ValidDraws(draws)
    modifies board
    ensures fresh(solution) && IsGrid(solution)
    ensures forall r, c :: InRange(r, c) ==> solution[r, c] == board[r, c]
    ensures forall r, c :: InRange(r, c) && old(board[r, c]) != 0 ==> solution[r, c] == old(board[r, c])
    ensures Solved(solution) || forall r, c :: InRange(r, c) ==> solution[r, c] == old(board[r, c])
  {
    var numbers := new int[9] [1, 2, 3, 4, 5, 6, 7, 8, 9];
    ghost var digits := numbers[..];
    assert forall k :: 0 <= k < 9 ==> digits[k] == k + 1;
    ShuffleArray(numbers, draws);
    var order := numbers[..];
    PermutedDigits(order, digits);
    var solved := Solve(board, order, 0, 0);
    solution := CopyGrid(board);
    if solved {
      assert Full(board);
      SolvedCopy(board, solution);
    }
  }

  lemma PermutedDigits(s: seq<int>, t: seq<int>)
    requires multiset(s) == multiset(t)
    requires forall k :: 0 <= k < |t| ==> 1 <= t[k] <= 9
    ensures forall k :: 0 <= k < |s| ==> 1 <= s[k] <= 9
  {
    forall k | 0 <= k < |s|
      ensures 1 <= s[k] <= 9
    {
      assert s[k] in multiset(t);
    }
  }

  lemma SolvedCopy(a: array2<int>, b: array2<int>)
    requires IsGrid(a) && IsGrid(b) && Solved(a)
    requires forall r, c :: InRange(r, c) ==> a[r, c] == b[r, c]
    ensures Solved(b)
  {
  }

  // ---------------------------------------------------------------------------
  // createPuzzle
  // ---------------------------------------------------------------------------

  /**
   * The lookup `{ easy: 30, medium: 45, hard: 55 }[difficulty]`; any other
   * key yields `undefined`, modelled as None.
   */
  function CellsToRemove(difficulty: string): (n: Option<nat>)
    ensures n.Some? <==> difficulty in {"easy", "medium", "hard"}
    ensures n.Some? ==> 30 <= n.value <= 55
  {
    if difficulty == "easy" then Some(30)
    else if difficulty == "medium" then Some(45)
    else if difficulty == "hard" then Some(55)
    else None
  }

  /** `removed < cellsToRemove`; a comparison with `undefined` is false. */
  predicate BelowTarget(removed: nat, target: Option<nat>)
  {
    target.Some? && removed < target.value
  }

  /** How many cells a carve clears: the looked-up count, or none at all. */
  function CarveCount(difficulty: string): nat
  {
    match CellsToRemove(difficulty)
    case Some(n) => n
    case None => 0
  }

  lemma DifficultyCounts()
    ensures CarveCount("easy") == 30 && CarveCount("medium") == 45 && CarveCount("hard") == 55
    ensures forall d :: d !in {"easy", "medium", "hard"} ==> CarveCount(d) == 0
  {
  }

  /** A board that is `solution` with the cells of `cleared` emptied has exactly those extra empty cells. */
  lemma ClearedCells(puzzle: array2<int>, solution: array2<int>, cleared: set<(int, int)>)
    requires IsGrid(puzzle) && IsGrid(solution)
    requires forall r, c :: InRange(r, c) ==> puzzle[r, c] == if (r, c) in cleared then 0 else solution[r, c]
    requires forall p :: p in cleared ==> InRange(p.0, p.1) && solution[p.0, p.1] != 0
    ensures SubAssignment(puzzle, solution)
    ensures EmptyCells(puzzle) == EmptyCells(solution) + cleared
    ensures |EmptyCells(puzzle)| == |EmptyCells(solution)| + |cleared|
  {
    assert EmptyCells(solution) !! cleared;
  }

  /**
   * createPuzzle: copies the solved board and clears random filled cells
   * until `CellsToRemove(difficulty)` of them are cleared; a pick that
   * lands on an empty cell is drawn again. Each pick uses two draws (row,
   * then column). The draws are finite, so `carved` reports whether the
   * loop reached its count before they ran out.
   */
  method CreatePuzzle(solvedBoard: array2<int>, difficulty: string, draws: seq<real>)
    returns (puzzle: array2<int>, carved: bool)
    requires IsGrid(solvedBoard) && ValidDraws(draws)
    ensures fresh(puzzle) && IsGrid(puzzle)
    ensures SubAssignment(puzzle, solvedBoard)
    ensures EmptyCells(solvedBoard) <= EmptyCells(puzzle)
    ensures |EmptyCells(puzzle)| <= |EmptyCells(solvedBoard)| + CarveCount(difficulty)
    ensures carved ==> |EmptyCells(puzzle)| == |EmptyCells(solvedBoard)| + CarveCount(difficulty)
    ensures CellsToRemove(difficulty).None? ==> carved
  {
    puzzle := CopyGrid(solvedBoard);
    var target := CellsToRemove(difficulty);
    var removed: nat := 0;
    var k := 0;
    ghost var cleared: set<(int, int)> := {};
    while BelowTarget(removed, target) && k + 1 < |draws|
      invariant 0 <= k
      invariant forall r, c :: InRange(r, c) ==>
                  puzzle[r, c] == if (r, c) in cleared then 0 else solvedBoard[r, c]
      invariant forall p :: p in cleared ==> InRange(p.0, p.1) && solvedBoard[p.0, p.1] != 0
      invariant |cleared| == removed <= CarveCount(difficulty)
      decreases |draws| - k
    {
      var row := Pick(draws[k], 9);
      var col := Pick(draws[k + 1], 9);
      k := k + 2;
      if puzzle[row, col] != 0 {
        puzzle[row, col] := 0;
        cleared := cleared + {(row, col)};
        removed := removed + 1;
      }
    }
    ClearedCells(puzzle, solvedBoard, cleared);
    carved := !BelowTarget(removed, target);
  }

  // ---------------------------------------------------------------------------
  // generateSudoku
  // ---------------------------------------------------------------------------

  /**
   * generateSudoku: solves an empty board and carves the result.
   * `shuffleDraws` feed the digit shuffle, `carveDraws` the carver.
   */
  method GenerateSudoku(shuffleDraws: seq<real>, carveDraws: seq<real>, difficulty: string := "medium")
    returns (board: array2<int>, solution: array2<int>, carved: bool)
    requires 8 <= |shuffleDraws| && ValidDraws(shuffleDraws) && ValidDraws(carveDraws)
    ensures fresh(board) && fresh(solution) && board != solution
    ensures IsGrid(board) && IsGrid(solution)
    ensures SubAssignment(board, solution)
    ensures Solved(solution) || AllEmpty(solution)
    ensures Solved(solution) && carved ==> |EmptyCells(board)| == CarveCount(difficulty)
  {
    var emptyBoard := EmptyGrid();
    solution := SolveSudoku(emptyBoard, shuffleDraws);
    board, carved := CreatePuzzle(solution, difficulty, carveDraws);
    if Solved(solution) {
      FullHasNoEmptyCells(solution);
    }
  }

  lemma FullHasNoEmptyCells(b: array2<int>)
    requires IsGrid(b) && Full(b)
    ensures EmptyCells(b) == {}
  {
    forall p | p in EmptyCells(b)
      ensures false
    {
    }
  }

  // ---------------------------------------------------------------------------
  // Every digit in every row, column and box of a solved grid
  // ---------------------------------------------------------------------------

  predicate Distinct(s: seq<int>)
  {
    forall i, j :: 0 <= i < j < |s| ==> s[i] != s[j]
  }

  /** Pigeonhole: distinct elements drawn from `vals` are at most |vals| many. */
  lemma {:induction false} DistinctWithin(s: seq<int>, vals: set<int>)
    requires Distinct(s)
    requires forall i :: 0 <= i < |s| ==> s[i] in vals
    ensures |s| <= |vals|
    decreases |s|
  {
    if |s| > 0 {
      DistinctWithin(s[1..], vals - {s[0]});
    }
  }

  /** Nine distinct digits are all nine digits. */
  lemma EveryDigitOccurs(s: seq<int>, d: int)
    requires |s| == 9 && Distinct(s)
    requires forall i :: 0 <= i < |s| ==> 1 <= s[i] <= 9
    requires 1 <= d <= 9
    ensures d in s
  {
    if d !in s {
      var others := {1, 2, 3, 4, 5, 6, 7, 8, 9} - {d};
      assert |{1, 2, 3, 4, 5, 6, 7, 8, 9}| == 9;
      DistinctWithin(s, others);
    }
  }

  /** In a solved grid each row contains each digit (and, by NoConflicts, only once). */
  lemma SolvedRowHasEveryDigit(b: array2<int>, r: int, d: int)
    requires IsGrid(b) && Solved(b) && 0 <= r < 9 && 1 <= d <= 9
    ensures RowHas(b, r, d)
  {
    var row := seq(9, k requires 0 <= k < 9 reads b => b[r, k]);
    EveryDigitOccurs(row, d);
  }

  /** In a solved grid each column contains each digit. */
  lemma SolvedColHasEveryDigit(b: array2<int>, c: int, d: int)
    requires IsGrid(b) && Solved(b) && 0 <= c < 9 && 1 <= d <= 9
    ensures ColHas(b, c, d)
  {
    var col := seq(9, k requires 0 <= k < 9 reads b => b[k, c]);
    EveryDigitOccurs(col, d);
  }

  /** In a solved grid each 3x3 box contains each digit. */
  lemma SolvedBoxHasEveryDigit(b: array2<int>, r: int, c: int, d: int)
    requires IsGrid(b) && Solved(b) && InRange(r, c) && 1 <= d <= 9
    ensures BoxHas(b, r, c, d)
  {
    var o, p := BoxOrigin(r), BoxOrigin(c);
    var box := seq(9, k requires 0 <= k < 9 reads b => b[o + k / 3, p + k % 3]);
    forall i, j | 0 <= i < j < 9
      ensures box[i] != box[j]
    {
      SameBoxIsBoxSpan(r, c, o + i / 3, p + i % 3);
      SameBoxIsBoxSpan(r, c, o + j / 3, p + j % 3);
      assert SameBox(o + i / 3, p + i % 3, o + j / 3, p + j % 3);
    }
    EveryDigitOccurs(box, d);
    var k :| 0 <= k < 9 && box[k] == d;
    SameBoxIsBoxSpan(r, c, o + k / 3, p + k % 3);
  }
}
