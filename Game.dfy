/**
 * The game-state logic of src/components/Game.jsx (with the cell-selection
 * rule of src/components/Board.jsx): a session holds the player's board,
 * the hidden solution, the selected cell, a status per cell keyed
 * "row-col", the mistake counter and whether the game is running. Number
 * input writes only correct digits or 0 (clear), counts wrong ones, and ends
 * the game at ten mistakes or when the board matches the solution.
 */
module Game {
  import opened Wrappers
  import opened Sudoku

  /** Ten mistakes end the game. */
  const MistakeLimit := 10

  datatype CellStatus = Correct | Wrong

  function DigitChar(n: int): (ch: char)
    requires 0 <= n < 10
    ensures '0' <= ch <= '9' && ch as int - '0' as int == n
  {
    ('0' as int + n) as char
  }

  /** The template string `${row}-${col}` for an on-board cell. */
  function CellKey(row: int, col: int): (key: string)
    requires InRange(row, col)
    ensures |key| == 3 && key[1] == '-'
    ensures key[0] as int - '0' as int == row && key[2] as int - '0' as int == col
  {
    [DigitChar(row)] + "-" + [DigitChar(col)]
  }

  /** Distinct cells never share a status entry. */
  lemma CellKeyInjective(r1: int, c1: int, r2: int, c2: int)
    requires InRange(r1, c1) && InRange(r2, c2)
    ensures CellKey(r1, c1) == CellKey(r2, c2) <==> r1 == r2 && c1 == c2
  {
    if CellKey(r1, c1) == CellKey(r2, c2) {
      assert CellKey(r1, c1)[0] == CellKey(r2, c2)[0];
      assert CellKey(r1, c1)[2] == CellKey(r2, c2)[2];
    }
  }

  // ---------------------------------------------------------------------------
  // Keyboard input
  // ---------------------------------------------------------------------------

  /**
   * JavaScript's `a < b` on strings: lexicographic order of characters, which
   * agrees with JavaScript's code-unit order for the comparisons with "1" and
   * "9" made here.
   */
  function StrLess(a: string, b: string): bool
  {
    if |b| == 0 then false
    else if |a| == 0 then true
    else if a[0] != b[0] then a[0] < b[0]
    else StrLess(a[1..], b[1..])
  }

  /**
   * `parseInt` of a key that starts with 1..9 (the only keys it is applied
   * to): the value of its leading decimal digits, after `acc`. Prefixes such
   * as "0x", which `parseInt` also reads, cannot occur there.
   */
  function LeadingDigits(s: string, acc: nat): (n: nat)
    ensures n >= acc
    ensures |s| > 0 && '1' <= s[0] <= '9' ==> n > 0
    ensures |s| == 1 && '0' <= s[0] <= '9' ==> n == acc * 10 + (s[0] as int - '0' as int)
  {
    if |s| == 0 || !('0' <= s[0] <= '9') then acc
    else LeadingDigits(s[1..], acc * 10 + (s[0] as int - '0' as int))
  }

  /** The string test `key >= '1' && key <= '9'` holds exactly for keys that begin with 1..8, and for "9". */
  lemma {:induction false} DigitKeyRange(key: string)
    ensures (!StrLess(key, "1") && !StrLess("9", key)) <==>
              |key| > 0 && ('1' <= key[0] <= '8' || key == "9")
  {
    if |key| == 0 {
      assert StrLess(key, "1");
    } else if key[0] == '1' {
      assert StrLess(key, "1") == StrLess(key[1..], "") == false;
      assert !StrLess("9", key);
    } else if key[0] == '9' {
      assert !StrLess(key, "1");
      assert StrLess("9", key) == StrLess("", key[1..]) == (|key| > 1);
      assert key == "9" <==> |key| == 1;
    } else {
      assert StrLess(key, "1") == (key[0] < '1');
      assert StrLess("9", key) == ('9' < key[0]);
    }
  }

  /**
   * What `handleKeyboardInput` passes to `handleNumberInput` for a key:
   * keys in the string range '1'..'9' give their leading number, Backspace
   * and Delete give 0 (clear), every other key gives nothing.
   */
  function KeyNumber(key: string): (n: Option<int>)
    ensures |key| == 1 ==> (n.Some? && n.value != 0 <==> '1' <= key[0] <= '9')
    ensures |key| == 1 && '1' <= key[0] <= '9' ==> n == Some(key[0] as int - '0' as int)
    ensures key == "Backspace" || key == "Delete" ==> n == Some(0)
    ensures n == Some(0) ==> key == "Backspace" || key == "Delete"
    ensures n.Some? ==> n.value >= 0
    ensures n.None? <==>
              !(|key| > 0 && ('1' <= key[0] <= '8' || key == "9")) && key != "Backspace" && key != "Delete"
  {
    DigitKeyRange(key);
    if !StrLess(key, "1") && !StrLess("9", key) then Some(LeadingDigits(key, 0))
    else if key == "Backspace" || key == "Delete" then Some(0)
    else None
  }

  // ---------------------------------------------------------------------------
  // The session
  // ---------------------------------------------------------------------------

  /** Every cell of the board equals the solution's. */
  ghost predicate Matches(b: array2<int>, s: array2<int>)
    reads b, s
    requires IsGrid(b) && IsGrid(s)
  {
    forall r, c :: InRange(r, c) ==> b[r, c] == s[r, c]
  }

  /** While the player's board agrees with a complete solution, it is won exactly when no cell is empty. */
  lemma WonIffNoEmptyCell(b: array2<int>, s: array2<int>)
    requires IsGrid(b) && IsGrid(s) && SubAssignment(b, s) && Full(s)
    ensures Matches(b, s) <==> EmptyCells(b) == {}
  {
    if EmptyCells(b) == {} {
      forall r, c | InRange(r, c)
        ensures b[r, c] == s[r, c]
      {
        assert (r, c) !in EmptyCells(b);
      }
    } else {
      var p :| p in EmptyCells(b);
      assert b[p.0, p.1] != s[p.0, p.1];
    }
  }

  class Session {
    var board: array2<int>         // gameBoard
    var solution: array2<int>      // solution; a 0×0 array stands for `[]`
    var selected: Option<(int, int)>
    var status: map<string, CellStatus>
    var mistakes: int
    var timer: real
    var active: bool               // isGameActive
    var started: bool              // gameStarted
    var winShown: bool             // showWinModal
    var gameOverShown: bool        // showGameOverModal
    var difficulty: string
    /** The cells that were filled when the puzzle was installed. */
    ghost var fixed: set<(int, int)>

    ghost predicate Valid()
      reads this, board, solution
    {
      IsGrid(board) && board != solution &&
      (active ==> IsGrid(solution) && 0 <= mistakes < MistakeLimit) &&
      (IsGrid(solution) ==> SubAssignment(board, solution)) &&
      (selected.Some? ==> InRange(selected.value.0, selected.value.1) && selected.value !in fixed) &&
      (forall p :: p in fixed ==> InRange(p.0, p.1) && board[p.0, p.1] != 0)
    }

    /** The initial `useState` values: an empty board, no solution, no game. */
    constructor ()
      ensures Valid() && fresh(board) && fresh(solution)
      ensures AllEmpty(board) && solution.Length0 == 0 && selected.None? && status == map[]
      ensures mistakes == 0 && timer == 0.0 && !active && !started && !winShown && !gameOverShown
      ensures difficulty == "medium" && fixed == {}
    {
      var empty := EmptyGrid();
      board := empty;
      solution := new int[0, 0];
      selected := None;
      status := map[];
      mistakes := 0;
      timer := 0.0;
      active := false;
      started := false;
      winShown := false;
      gameOverShown := false;
      difficulty := "medium";
      fixed := {};
    }

    /** The board's click handler: only an empty cell can be selected. */
    method SelectCell(row: int, col: int)
      requires Valid() && InRange(row, col)
      modifies this`selected
      ensures Valid()
      ensures selected == if board[row, col] == 0 then Some((row, col)) else old(selected)
    {
      if board[row, col] == 0 {
        selected := Some((row, col));
      }
    }

    /** gameWon */
    method GameWon()
      modifies this`active, this`winShown
      ensures !active && winShown
    {
      active := false;
      winShown := true;
    }

    /** gameOver */
    method GameOver()
      modifies this`active, this`gameOverShown
      ensures !active && gameOverShown
    {
      active := false;
      gameOverShown := true;
    }

    /** confirmSurrender: the player gives up, so the game stops as lost and the game-over modal is shown. */
    method ConfirmSurrender()
      requires Valid()
      modifies this`active, this`gameOverShown
      ensures Valid() && !active && gameOverShown
    {
      active := false;
      gameOverShown := true;
    }

    /** checkWin: scans all 81 cells and declares the win when none differs from the solution. */
    method CheckWin()
      requires Valid() && IsGrid(solution)
      modifies this`active, this`winShown
      ensures Valid()
      ensures Matches(board, solution) ==> !active && winShown
      ensures !Matches(board, solution) ==> active == old(active) && winShown == old(winShown)
    {
      for i := 0 to 9
        invariant forall r, c :: 0 <= r < i && 0 <= c < 9 ==> board[r, c] == solution[r, c]
      {
        for j := 0 to 9
          invariant forall r, c :: 0 <= r < i && 0 <= c < 9 ==> board[r, c] == solution[r, c]
          invariant forall c :: 0 <= c < j ==> board[i, c] == solution[i, c]
        {
          if board[i, j] != solution[i, j] {
            return;
          }
        }
      }
      GameWon();
    }

    /**
     * The effect of `handleNumberInput(number)`, between the state before
     * (old) and after.
     */
    twostate predicate NumberInputEffect(number: int)
      reads this, board, solution
    {
      board == old(board) && solution == old(solution) && selected == old(selected) &&
      fixed == old(fixed) && timer == old(timer) && started == old(started) &&
      difficulty == old(difficulty) && IsGrid(board) &&
      // only the selected cell can change
      (forall r, c :: InRange(r, c) && selected != Some((r, c)) ==> board[r, c] == old(board[r, c])) &&
      // no selection or no running game: nothing at all happens
      (old(selected.None? || !active) ==>
         (forall r, c :: InRange(r, c) ==> board[r, c] == old(board[r, c])) &&
         status == old(status) && mistakes == old(mistakes) && active == old(active) &&
         winShown == old(winShown) && gameOverShown == old(gameOverShown)) &&
      (old(active) && selected.Some? && InRange(selected.value.0, selected.value.1) && IsGrid(solution) ==>
         var (row, col) := selected.value;
         var key := CellKey(row, col);
         // 0 clears the cell and its status
         (number == 0 ==>
            board[row, col] == 0 && status == old(status) - {key} && mistakes == old(mistakes) &&
            active && winShown == old(winShown) && gameOverShown == old(gameOverShown)) &&
         // the solution's digit is written, marked correct, and may win the game
         (number != 0 && number == solution[row, col] ==>
            board[row, col] == number && status == old(status)[key := Correct] &&
            mistakes == old(mistakes) && gameOverShown == old(gameOverShown) &&
            (active <==> !Matches(board, solution)) &&
            (winShown <==> old(winShown) || Matches(board, solution))) &&
         // any other digit is not written: it is marked wrong and counted
         (number != 0 && number != solution[row, col] ==>
            board[row, col] == old(board[row, col]) && status == old(status)[key := Wrong] &&
            mistakes == old(mistakes) + 1 && winShown == old(winShown) &&
            (active <==> mistakes < MistakeLimit) &&
            (gameOverShown <==> old(gameOverShown) || mistakes >= MistakeLimit)))
    }

    /** handleNumberInput */
    method HandleNumberInput(number: int)
      requires Valid()
      modifies this, board
      ensures Valid()
      ensures NumberInputEffect(number)
      ensures forall p :: p in fixed ==> board[p.0, p.1] == old(board[p.0, p.1])
    {
      if selected.None? || !active {
        return;
      }
      var (row, col) := selected.value;
      var key := CellKey(row, col);
      if number == 0 {
        board[row, col] := 0;
        status := status - {key};
        return;
      }
      if solution[row, col] == number {
        board[row, col] := number;
        status := status[key := Correct];
        CheckWin();
      } else {
        status := status[key := Wrong];
        mistakes := mistakes + 1;
        if mistakes >= MistakeLimit {
          GameOver();
        }
      }
    }

    /** handleKeyboardInput */
    method HandleKeyboardInput(key: string)
      requires Valid()
      modifies this, board
      ensures Valid()
      ensures old(active) && KeyNumber(key).Some? ==> NumberInputEffect(KeyNumber(key).value)
      ensures !old(active) || KeyNumber(key).None? ==> unchanged(this) && unchanged(board)
      ensures forall p :: p in fixed ==> board[p.0, p.1] == old(board[p.0, p.1])
    {
      if !active {
        return;
      }
      match KeyNumber(key)
      case Some(n) => HandleNumberInput(n);
      case None =>
    }

    /** exitGame: back to an empty board with no solution, selection, status or mistakes. */
    method ExitGame()
      modifies this
      ensures Valid() && fresh(board) && fresh(solution)
      ensures AllEmpty(board) && solution.Length0 == 0 && selected.None? && status == map[]
      ensures mistakes == 0 && timer == 0.0 && !active && !started && !gameOverShown
      ensures winShown == old(winShown) && difficulty == old(difficulty) && fixed == {}
    {
      var empty := EmptyGrid();
      var none := new int[0, 0];
      started := false;
      active := false;
      gameOverShown := false;
      board, solution := empty, none;
      selected := None;
      mistakes := 0;
      timer := 0.0;
      status := map[];
      fixed := {};
    }

    /** initializeGame: installs a fresh puzzle and solution and starts the game. */
    method InitializeGame(shuffleDraws: seq<real>, carveDraws: seq<real>)
      requires 8 <= |shuffleDraws| && ValidDraws(shuffleDraws) && ValidDraws(carveDraws)
      modifies this
      ensures Valid() && fresh(board) && fresh(solution) && IsGrid(board) && IsGrid(solution)
      ensures SubAssignment(board, solution) && (Solved(solution) || AllEmpty(solution))
      ensures active && mistakes == 0 && timer == 0.0 && selected.None? && status == map[] && !gameOverShown
      ensures fixed == FilledCells(board)
      ensures started == old(started) && winShown == old(winShown) && difficulty == old(difficulty)
    {
      mistakes := 0;
      timer := 0.0;
      active := true;
      selected := None;
      gameOverShown := false;
      status := map[];
      var puzzle, solved, carved := GenerateSudoku(shuffleDraws, carveDraws, difficulty);
      board, solution := puzzle, solved;
      fixed := FilledCells(puzzle);
    }
  }
}
