/**
 * The tic-tac-toe logic of the cartridge (cart.c): the 3x3 board `field`,
 * indexed field[x, y] with x the column, and the queries on it; the cursor
 * movement and the pixel-to-cell mapping of the frame loop.
 */
module Board {
  /** The board holds 0 (empty), 1 (player 1, "X") or 2 (player 2, "O"). */
  predicate IsBoard(f: array2<int>)
  {
    f.Length0 == 3 && f.Length1 == 3
  }

  ghost predicate ValidBoard(f: array2<int>)
    requires IsBoard(f)
    reads f
  {
    forall i, j :: 0 <= i < 3 && 0 <= j < 3 ==> 0 <= f[i, j] <= 2
  }

  /**
   * The eight lines in the order check_win examines them: the horizontal
   * lines field[0..2][i] for i = 0, 1, 2, the vertical lines field[i][0..2],
   * then the diagonals (0,0)-(1,1)-(2,2) and (0,2)-(1,1)-(2,0).
   */
  function LineCell(k: int, j: int): (c: (int, int))
    requires 0 <= k < 8 && 0 <= j < 3
    ensures 0 <= c.0 < 3 && 0 <= c.1 < 3
  {
    if k < 3 then (j, k)
    else if k < 6 then (k - 3, j)
    else if k == 6 then (j, j)
    else (j, 2 - j)
  }

  function Cell(f: array2<int>, k: int, j: int): int
    requires IsBoard(f) && 0 <= k < 8 && 0 <= j < 3
    reads f
  {
    var c := LineCell(k, j);
    f[c.0, c.1]
  }

  /** The three cells of line k hold the same value (the comparison check_win makes). */
  predicate Uniform(f: array2<int>, k: int)
    requires IsBoard(f) && 0 <= k < 8
    reads f
  {
    Cell(f, k, 0) == Cell(f, k, 1) && Cell(f, k, 1) == Cell(f, k, 2)
  }

  /** Line k is three equal non-empty cells. */
  predicate Won(f: array2<int>, k: int)
    requires IsBoard(f) && 0 <= k < 8
    reads f
  {
    Uniform(f, k) && Cell(f, k, 0) > 0
  }

  /** Player v owns a whole line. */
  ghost predicate Wins(f: array2<int>, v: int)
    requires IsBoard(f)
    reads f
  {
    exists k :: 0 <= k < 8 && Won(f, k) && Cell(f, k, 0) == v
  }

  /**
   * The scan of check_win from line k on, with w the value last copied out of
   * a uniform line: the first won line ends the scan with its value; a
   * uniform line of empty cells only updates w.
   */
  function Scan(f: array2<int>, k: int, w: int): (r: int)
    requires IsBoard(f) && 0 <= k <= 8
    reads f
    decreases 8 - k
  {
    if k == 8 then w
    else if Uniform(f, k) then
      (if Cell(f, k, 0) > 0 then Cell(f, k, 0) else Scan(f, k + 1, Cell(f, k, 0)))
    else Scan(f, k + 1, w)
  }

  /** check_win: 1 or 2 for the owner of the first complete line, otherwise 0 on a valid board. */
  function CheckWin(f: array2<int>): (r: int)
    requires IsBoard(f)
    reads f
  {
    Scan(f, 0, 0)
  }

  /** Line k is the first won line. */
  predicate FirstWon(f: array2<int>, k: int)
    requires IsBoard(f) && 0 <= k < 8
    reads f
  {
    Won(f, k) && forall m :: 0 <= m < k ==> !Won(f, m)
  }

  lemma {:induction false} ScanFindsFirstWon(f: array2<int>, k: int, w: int)
    requires IsBoard(f) && 0 <= k <= 8 && w <= 0
    ensures Scan(f, k, w) > 0 <==> exists m :: k <= m < 8 && Won(f, m)
    ensures Scan(f, k, w) > 0 ==>
      exists m :: k <= m < 8 && Won(f, m) && Scan(f, k, w) == Cell(f, m, 0) && forall n :: k <= n < m ==> !Won(f, n)
    ensures Scan(f, k, w) <= 0 && ValidBoard(f) && w == 0 ==> Scan(f, k, w) == 0
    decreases 8 - k
  {
    if k < 8 {
      if Uniform(f, k) && Cell(f, k, 0) > 0 {
        assert Won(f, k);
      } else {
        var w' := if Uniform(f, k) then Cell(f, k, 0) else w;
        ScanFindsFirstWon(f, k + 1, w');
        if Scan(f, k, w) > 0 {
          var m :| k + 1 <= m < 8 && Won(f, m) && Scan(f, k + 1, w') == Cell(f, m, 0) && forall n :: k + 1 <= n < m ==> !Won(f, n);
          assert forall n :: k <= n < m ==> !Won(f, n);
        }
        if ValidBoard(f) && w == 0 && Uniform(f, k) {
          var c := LineCell(k, 0);
          assert 0 <= f[c.0, c.1] <= 2;
        }
      }
    }
  }

  /**
   * What check_win answers: a positive result is the value of the first won
   * line in the order rows, columns, diagonals, and it is positive exactly
   * when some line is won; on a valid board it is 0, 1 or 2.
   */
  lemma CheckWinCorrect(f: array2<int>)
    requires IsBoard(f)
    ensures CheckWin(f) > 0 <==> exists k :: 0 <= k < 8 && Won(f, k)
    ensures CheckWin(f) > 0 ==> exists k :: 0 <= k < 8 && FirstWon(f, k) && CheckWin(f) == Cell(f, k, 0)
    ensures ValidBoard(f) ==> 0 <= CheckWin(f) <= 2
    ensures ValidBoard(f) ==> (CheckWin(f) == 0 <==> !Wins(f, 1) && !Wins(f, 2))
    ensures CheckWin(f) > 0 ==> Wins(f, CheckWin(f))
  {
    ScanFindsFirstWon(f, 0, 0);
    if ValidBoard(f) && CheckWin(f) > 0 {
      var k :| 0 <= k < 8 && FirstWon(f, k) && CheckWin(f) == Cell(f, k, 0);
      var c := LineCell(k, 0);
      assert 0 <= f[c.0, c.1] <= 2;
    }
    if ValidBoard(f) && (Wins(f, 1) || Wins(f, 2)) {
      assert exists k :: 0 <= k < 8 && Won(f, k);
    }
  }

  /** The nested loops of full from cell (i, j) on, in row-major order, with the flag so far. */
  function FullFrom(b: array2<int>, i: int, j: int, flag: int): (r: int)
    requires IsBoard(b) && 0 <= i <= 3 && 0 <= j <= 3 && (flag == 0 || flag == 1)
    reads b
    ensures r == 0 || r == 1
    ensures r == 1 <==> flag == 1 && forall p, q :: 0 <= p < 3 && 0 <= q < 3 && (i < p || (i == p && j <= q)) ==> b[p, q] != 0
    decreases 3 - i, 3 - j
  {
    if i == 3 then flag
    else if j == 3 then FullFrom(b, i + 1, 0, flag)
    else FullFrom(b, i, j + 1, if b[i, j] == 0 then 0 else flag)
  }

  /** full: 1 exactly when no cell of the board is empty, otherwise 0. */
  function Full(b: array2<int>): (r: int)
    requires IsBoard(b)
    reads b
    ensures r == 0 || r == 1
    ensures r == 1 <==> forall i, j :: 0 <= i < 3 && 0 <= j < 3 ==> b[i, j] != 0
  {
    FullFrom(b, 0, 0, 1)
  }

  /** The game outcome as the frame loop decides it: wins first, then a draw. */
  datatype Outcome = InProgress | Player1Wins | Player2Wins | Draw

  function OutcomeOf(b: array2<int>): (o: Outcome)
    requires IsBoard(b)
    reads b
  {
    if CheckWin(b) == 1 then Player1Wins
    else if CheckWin(b) == 2 then Player2Wins
    else if Full(b) == 1 then Draw
    else InProgress
  }

  /**
   * On a valid board the round goes on exactly when no line is won and some
   * cell is empty; a draw is a full board without a won line; a win is
   * reported for the owner of the first won line even on a full board.
   */
  lemma OutcomeCorrect(b: array2<int>)
    requires IsBoard(b) && ValidBoard(b)
    ensures OutcomeOf(b) == InProgress <==>
      (forall k :: 0 <= k < 8 ==> !Won(b, k)) && exists i, j :: 0 <= i < 3 && 0 <= j < 3 && b[i, j] == 0
    ensures OutcomeOf(b) == Draw <==>
      (forall k :: 0 <= k < 8 ==> !Won(b, k)) && forall i, j :: 0 <= i < 3 && 0 <= j < 3 ==> b[i, j] != 0
    ensures OutcomeOf(b) == Player1Wins <==> exists k :: 0 <= k < 8 && FirstWon(b, k) && Cell(b, k, 0) == 1
    ensures OutcomeOf(b) == Player2Wins <==> exists k :: 0 <= k < 8 && FirstWon(b, k) && Cell(b, k, 0) == 2
  {
    CheckWinCorrect(b);
    forall k | 0 <= k < 8 && FirstWon(b, k)
      ensures CheckWin(b) == Cell(b, k, 0)
    {
      var m :| 0 <= m < 8 && FirstWon(b, m) && CheckWin(b) == Cell(b, m, 0);
      assert m == k;
    }
  }

  /** The pixel bounds the cursor sprite moves in. */
  predicate InScreen(x: int, y: int)
  {
    0 <= x <= 180 && 0 <= y <= 152
  }

  /**
   * The cursor step of one frame: the inverted direction nibble moves the
   * cursor one pixel only when exactly one button is pressed (8 down, 4 up,
   * 2 left, 1 right), wrapping around at the screen edges.
   */
  function CursorStep(x: int, y: int, dpad: int): (r: (int, int))
    ensures InScreen(x, y) ==> InScreen(r.0, r.1)
    ensures InScreen(x, y) && dpad == 8 ==> r == (x, (y + 1) % 153)
    ensures InScreen(x, y) && dpad == 4 ==> r == (x, (y - 1) % 153)
    ensures InScreen(x, y) && dpad == 2 ==> r == ((x - 1) % 181, y)
    ensures InScreen(x, y) && dpad == 1 ==> r == ((x + 1) % 181, y)
    ensures dpad != 8 && dpad != 4 && dpad != 2 && dpad != 1 ==> r == (x, y)
  {
    if dpad == 8 then (x, if y + 1 > 144 + 8 then 0 else y + 1)
    else if dpad == 4 then (x, if y - 1 < 0 then 144 + 8 else y - 1)
    else if dpad == 2 then (if x - 1 < 0 then 172 + 8 else x - 1, y)
    else if dpad == 1 then (if x + 1 > 172 + 8 then 0 else x + 1, y)
    else (x, y)
  }

  const CellSize := 28
  const BoardLeft := 45
  const BoardTop := 37

  /**
   * The cell coordinate of a pixel coordinate, with -1 (the "no cell" value
   * the frame loop presets) left of or above the board.
   */
  function PixelToCell(p: int, origin: int): (c: int)
    ensures origin <= p ==> c == (p - origin) / CellSize
    ensures forall k :: 0 <= k < 3 && origin + CellSize * k <= p < origin + CellSize * (k + 1) ==> c == k
    ensures 0 <= c < 3 <==> origin <= p < origin + 3 * CellSize
  {
    if p < origin then -1 else (p - origin) / CellSize
  }
}
