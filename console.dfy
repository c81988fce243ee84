/**
 * The teleprinter console of the cartridge (cart.c, gbputc/gbputcxy/gbputs) as
 * pure functions over a value of its state. The background map is the 32x32
 * grid of tile numbers at 0x9800, row-major: the tile at column x of row y is
 * byte 32*y + x. A character's code is used directly as its tile number.
 */
module Console {
  import opened Common

  const MapSide := 32
  const MapBytes := 1024
  /** Visible columns: a line wraps after 20 characters. */
  const LineWidth := 20
  /** Visible rows: reaching row 18 switches scrolling on for good. */
  const ScreenRows := 18
  const Blank: byte := 32

  function MapIndex(x: int, y: int): int
  {
    MapSide * y + x
  }

  /**
   * The console: the cursor (`char_pos_x`, `char_pos_y`), the sticky
   * `scrolling` flag, the scroll registers as last set (`scroll_x`,
   * `scroll_y`) and the background map.
   */
  datatype Console = Console(col: int, row: int, scrolling: bool, scrollX: int, scrollY: int, vram: seq<byte>)

  /** set_tile: one map cell receives a tile number. */
  function WithTile(vram: seq<byte>, x: int, y: int, t: byte): (r: seq<byte>)
    requires |vram| == MapBytes && 0 <= x < MapSide && 0 <= y < MapSide
    ensures |r| == MapBytes
  {
    vram[MapIndex(x, y) := t]
  }

  /** Writing a tile stores it at its cell and leaves every other cell of the map alone. */
  lemma WithTileAt(vram: seq<byte>, x: int, y: int, t: byte)
    requires |vram| == MapBytes && 0 <= x < MapSide && 0 <= y < MapSide
    ensures WithTile(vram, x, y, t)[MapIndex(x, y)] == t
    ensures forall j :: 0 <= j < MapBytes && j != MapIndex(x, y) ==> WithTile(vram, x, y, t)[j] == vram[j]
  {
  }

  /** The 32 cells of row y replaced by blanks. */
  function BlankRow(vram: seq<byte>, y: int): (r: seq<byte>)
    requires |vram| == MapBytes && 0 <= y < MapSide
    ensures |r| == MapBytes
    ensures forall x :: 0 <= x < MapSide ==> r[MapIndex(x, y)] == Blank
    ensures forall j :: 0 <= j < MapBytes && !(MapIndex(0, y) <= j < MapIndex(0, y + 1)) ==> r[j] == vram[j]
  {
    var r := seq(MapBytes, j requires 0 <= j < MapBytes => if MapIndex(0, y) <= j < MapIndex(0, y + 1) then Blank else vram[j]);
    assert forall x :: 0 <= x < MapSide ==> MapIndex(0, y) <= MapIndex(x, y) < MapIndex(0, y + 1) < MapBytes + 1;
    r
  }

  /** The row a printable character lands on: row 32 is folded back to 0 first. */
  function DrawRow(row: int): int
  {
    if row == MapSide then 0 else row
  }

  /** A newline, or a character that fills the last visible column, advances the line. */
  predicate Advances(k: Console, c: byte)
  {
    c == NL || k.col + 1 == LineWidth
  }

  function RowAfter(k: Console, c: byte): int
  {
    if c == NL then k.row + 1
    else if k.col + 1 == LineWidth then DrawRow(k.row) + 1
    else DrawRow(k.row)
  }

  /** The flag is only ever set, and only by a printable character that leaves the cursor on row 18. */
  predicate ScrollingAfter(k: Console, c: byte)
  {
    k.scrolling || (c != NL && RowAfter(k, c) == ScreenRows)
  }

  /**
   * What gbputc needs so that every map write is inside the map: the cell it
   * draws and, when it scrolls, the row it clears.
   */
  predicate CanPutC(k: Console, c: byte)
  {
    && |k.vram| == MapBytes
    && (c != NL ==> 0 <= k.col < MapSide && 0 <= k.row <= MapSide)
    && (ScrollingAfter(k, c) && Advances(k, c) ==> 0 <= RowAfter(k, c) < MapSide)
  }

  /** The scroll step: scroll one row further and clear the row the cursor now stands on. */
  function Scroll(k: Console, advanced: bool): (r: Console)
    requires |k.vram| == MapBytes && (k.scrolling && advanced ==> 0 <= k.row < MapSide)
    ensures r.col == k.col && r.row == k.row && r.scrolling == k.scrolling
    ensures !(k.scrolling && advanced) ==> r == k
    ensures k.scrolling && advanced ==>
      r.scrollX == 0 && 0 <= r.scrollY < 32 && r.scrollY == (k.scrollY + 1) % 32 && r.vram == BlankRow(k.vram, k.row)
  {
    if k.scrolling && advanced then
      k.(scrollX := 0, scrollY := (k.scrollY + 1) % 32, vram := BlankRow(k.vram, k.row))  // (scroll_y + 1) & 0x1f
    else k
  }

  /** gbputc: emit one character. */
  function PutC(k: Console, c: byte): (r: Console)
    requires CanPutC(k, c)
    ensures |r.vram| == MapBytes
    // cursor movement
    ensures c == NL ==> r.col == 0 && r.row == k.row + 1
    ensures c != NL && k.col + 1 < LineWidth ==> r.col == k.col + 1 && r.row == DrawRow(k.row)
    ensures c != NL && k.col + 1 == LineWidth ==> r.col == 0 && r.row == DrawRow(k.row) + 1
    ensures r.row == RowAfter(k, c)
    // the flag is sticky
    ensures r.scrolling == ScrollingAfter(k, c) && (k.scrolling ==> r.scrolling)
    // drawing: a printable character lands under the cursor, a newline draws nothing
    ensures c != NL ==> r.vram[MapIndex(k.col, DrawRow(k.row))] == c
    ensures c == NL && !k.scrolling ==> r.vram == k.vram
    // scrolling: every line advance while scrolling moves one row and blanks the new cursor row
    ensures r.scrolling && Advances(k, c) ==>
      && r.scrollX == 0 && r.scrollY == (k.scrollY + 1) % 32
      && forall x :: 0 <= x < MapSide ==> r.vram[MapIndex(x, r.row)] == Blank
    ensures !(r.scrolling && Advances(k, c)) ==> r.scrollX == k.scrollX && r.scrollY == k.scrollY
    // no other cell changes
    ensures forall j :: 0 <= j < MapBytes && (c == NL || j != MapIndex(k.col, DrawRow(k.row)))
                        && !(r.scrolling && Advances(k, c) && MapIndex(0, r.row) <= j < MapIndex(0, r.row + 1))
                        ==> r.vram[j] == k.vram[j]
  {
    if c == NL then
      Scroll(k.(col := 0, row := k.row + 1), true)
    else
      var y := DrawRow(k.row);
      var drawn := k.(row := y, vram := WithTile(k.vram, k.col, y, c));
      var wrap := k.col + 1 == LineWidth;
      var moved := if wrap then drawn.(col := 0, row := y + 1) else drawn.(col := k.col + 1);
      Scroll(moved.(scrolling := moved.scrolling || moved.row == ScreenRows), wrap)
  }

  /** Every character of s up to its terminating NUL can be emitted in turn. */
  predicate CanPutS(k: Console, s: seq<byte>)
    decreases |s|
  {
    s == [] || s[0] == 0 || (CanPutC(k, s[0]) && CanPutS(PutC(k, s[0]), s[1..]))
  }

  /** gbputs: emit the characters of s up to its terminating NUL. */
  function PutS(k: Console, s: seq<byte>): (r: Console)
    requires CanPutS(k, s)
    ensures |k.vram| == MapBytes ==> |r.vram| == MapBytes
    ensures k.scrolling ==> r.scrolling  // the flag, once set, is never cleared
    decreases |s|
  {
    if s == [] || s[0] == 0 then k else PutS(PutC(k, s[0]), s[1..])
  }

  function MoveTo(k: Console, x: int, y: int): Console
  {
    k.(col := x, row := y)
  }

  /** gbputcxy: emit one character at (x, y), then put the cursor back where it was. */
  function PutCAt(k: Console, x: int, y: int, c: byte): (r: Console)
    requires CanPutC(MoveTo(k, x, y), c)
    ensures r.col == k.col && r.row == k.row && |r.vram| == MapBytes
    ensures c != NL && 0 <= x < MapSide && 0 <= y < MapSide ==> r.vram[MapIndex(x, y)] == c
  {
    var r := PutC(MoveTo(k, x, y), c);
    r.(col := k.col, row := k.row)
  }

  /**
   * A character that neither completes a line nor lands on row 18 just
   * writes its cell: the cursor, the flag and the scroll are unchanged.
   */
  lemma PutCAtInPlace(k: Console, x: int, y: int, c: byte)
    requires |k.vram| == MapBytes && 0 <= x < LineWidth - 1 && 0 <= y < MapSide && y != ScreenRows && c != NL
    ensures CanPutC(MoveTo(k, x, y), c)
    ensures PutCAt(k, x, y, c) == k.(vram := WithTile(k.vram, x, y, c))
  {
  }

  /** The characters of s written left to right from (x, y). */
  function WriteRun(vram: seq<byte>, x: int, y: int, s: seq<byte>): (r: seq<byte>)
    requires |vram| == MapBytes && 0 <= x && x + |s| <= MapSide && 0 <= y < MapSide
    ensures |r| == MapBytes
    decreases |s|
  {
    if s == [] then vram else WriteRun(WithTile(vram, x, y, s[0]), x + 1, y, s[1..])
  }

  lemma {:induction false} WriteRunAt(vram: seq<byte>, x: int, y: int, s: seq<byte>)
    requires |vram| == MapBytes && 0 <= x && x + |s| <= MapSide && 0 <= y < MapSide
    ensures forall j :: 0 <= j < |s| ==> WriteRun(vram, x, y, s)[MapIndex(x + j, y)] == s[j]
    ensures forall i :: 0 <= i < MapBytes && !(MapIndex(x, y) <= i < MapIndex(x + |s|, y)) ==>
      WriteRun(vram, x, y, s)[i] == vram[i]
    decreases |s|
  {
    if s != [] {
      var v := WithTile(vram, x, y, s[0]);
      WriteRunAt(v, x + 1, y, s[1..]);
      forall j | 0 <= j < |s|
        ensures WriteRun(vram, x, y, s)[MapIndex(x + j, y)] == s[j]
      {
        if j > 0 {
          assert s[1..][j - 1] == s[j];
          assert MapIndex(x + 1 + (j - 1), y) == MapIndex(x + j, y);
        }
      }
    }
  }

  lemma WriteRunElsewhere(vram: seq<byte>, x: int, y: int, s: seq<byte>, j: int)
    requires |vram| == MapBytes && 0 <= x && x + |s| <= MapSide && 0 <= y < MapSide
    requires 0 <= j < MapBytes && !(MapIndex(x, y) <= j < MapIndex(x + |s|, y))
    ensures WriteRun(vram, x, y, s)[j] == vram[j]
  {
    WriteRunAt(vram, x, y, s);
  }

  /** No character of s is a newline or the terminating NUL. */
  predicate Printable(s: seq<byte>)
  {
    forall i :: 0 <= i < |s| ==> s[i] != NL && s[i] != 0
  }

  /** A run of printable characters that stays short of the line end only writes its cells. */
  lemma {:induction false} PutRun(k: Console, s: seq<byte>)
    requires |k.vram| == MapBytes && 0 <= k.row < MapSide && 0 <= k.col && k.col + |s| < LineWidth
    requires Printable(s)
    ensures CanPutS(k, s)
    ensures PutS(k, s) == k.(col := k.col + |s|, scrolling := k.scrolling || (|s| > 0 && k.row == ScreenRows),
                              vram := WriteRun(k.vram, k.col, k.row, s))
    decreases |s|
  {
    if s != [] {
      var k' := PutC(k, s[0]);
      assert k' == k.(col := k.col + 1, scrolling := k.scrolling || k.row == ScreenRows,
                      vram := WithTile(k.vram, k.col, k.row, s[0]));
      PutRun(k', s[1..]);
    }
  }

  /**
   * Printable characters that reach the last visible column wrap the line on
   * their own: the cursor ends at column 0 of the next row, and the
   * characters are on the row they started on.
   */
  lemma PutToLineEnd(k: Console, s: seq<byte>)
    requires |k.vram| == MapBytes && 0 <= k.row < MapSide - 1 && 0 <= k.col && k.col + |s| == LineWidth
    requires |s| > 0 && Printable(s)
    ensures CanPutS(k, s)
    ensures PutS(k, s).col == 0 && PutS(k, s).row == k.row + 1
    ensures PutS(k, s).scrolling == (k.scrolling || (|s| > 1 && k.row == ScreenRows) || k.row + 1 == ScreenRows)
    ensures forall j :: 0 <= j < |s| ==> PutS(k, s).vram[MapIndex(k.col + j, k.row)] == s[j]
    ensures forall i :: 0 <= i < k.col ==> PutS(k, s).vram[MapIndex(i, k.row)] == k.vram[MapIndex(i, k.row)]
  {
    PutToLineEndCursor(k, s);
    PutToLineEndCells(k, s);
  }

  /** The cursor and scrolling part of PutToLineEnd. */
  lemma {:induction false} PutToLineEndCursor(k: Console, s: seq<byte>)
    requires |k.vram| == MapBytes && 0 <= k.row < MapSide - 1 && 0 <= k.col && k.col + |s| == LineWidth
    requires |s| > 0 && Printable(s)
    ensures CanPutS(k, s)
    ensures PutS(k, s).col == 0 && PutS(k, s).row == k.row + 1
    ensures PutS(k, s).scrolling == (k.scrolling || (|s| > 1 && k.row == ScreenRows) || k.row + 1 == ScreenRows)
    decreases |s|
  {
    var k' := PutC(k, s[0]);
    if |s| == 1 {
      assert PutS(k, s) == PutS(k', s[1..]) == k';
    } else {
      assert k' == k.(col := k.col + 1, scrolling := k.scrolling || k.row == ScreenRows,
                      vram := WithTile(k.vram, k.col, k.row, s[0]));
      PutToLineEndCursor(k', s[1..]);
      assert PutS(k, s) == PutS(k', s[1..]);
    }
  }

  /** The map part of PutToLineEnd: the row holds what it held left of the run, then the run. */
  lemma {:induction false} PutToLineEndCells(k: Console, s: seq<byte>)
    requires |k.vram| == MapBytes && 0 <= k.row < MapSide - 1 && 0 <= k.col && k.col + |s| == LineWidth
    requires |s| > 0 && Printable(s)
    ensures CanPutS(k, s)
    ensures forall j :: 0 <= j < |s| ==> PutS(k, s).vram[MapIndex(k.col + j, k.row)] == s[j]
    ensures forall i :: 0 <= i < k.col ==> PutS(k, s).vram[MapIndex(i, k.row)] == k.vram[MapIndex(i, k.row)]
    decreases |s|
  {
    PutToLineEndCursor(k, s);
    var k' := PutC(k, s[0]);
    if |s| == 1 {
      assert PutS(k, s) == PutS(k', s[1..]) == k';
    } else {
      assert k' == k.(col := k.col + 1, scrolling := k.scrolling || k.row == ScreenRows,
                      vram := WithTile(k.vram, k.col, k.row, s[0]));
      PutToLineEndCells(k', s[1..]);
      var r := PutS(k', s[1..]);
      assert PutS(k, s) == r;
      forall j | 0 <= j < |s|
        ensures r.vram[MapIndex(k.col + j, k.row)] == s[j]
      {
        if j > 0 {
          assert s[1..][j - 1] == s[j];
          assert MapIndex(k'.col + (j - 1), k.row) == MapIndex(k.col + j, k.row);
        }
      }
    }
  }

  /** Twenty printable characters from column 0 advance the row by one without any newline. */
  lemma TwentyCharactersWrap(k: Console, s: seq<byte>)
    requires |k.vram| == MapBytes && 0 <= k.row < MapSide - 1 && k.col == 0
    requires |s| == LineWidth && Printable(s)
    ensures CanPutS(k, s)
    ensures PutS(k, s).col == 0 && PutS(k, s).row == k.row + 1
    ensures forall x :: 0 <= x < LineWidth ==> PutS(k, s).vram[MapIndex(x, k.row)] == s[x]
  {
    PutToLineEnd(k, s);
  }

  /** gbputs on a concatenation is gbputs on each part in turn. */
  lemma {:induction false} PutSAppend(k: Console, a: seq<byte>, b: seq<byte>)
    requires forall i :: 0 <= i < |a| ==> a[i] != 0
    requires CanPutS(k, a) && CanPutS(PutS(k, a), b)
    ensures CanPutS(k, a + b) && PutS(k, a + b) == PutS(PutS(k, a), b)
    decreases |a|
  {
    if a == [] {
      assert a + b == b;
    } else {
      assert (a + b)[0] == a[0];
      assert (a + b)[1..] == a[1..] + b;
      PutSAppend(PutC(k, a[0]), a[1..], b);
    }
  }

  /**
   * A line of at most 19 printable characters followed by a newline, printed
   * from column 0 of a row other than 18 without scrolling, writes the
   * characters on that row and moves to column 0 of the next row.
   */
  lemma LineThenNewline(k: Console, text: seq<byte>)
    requires |k.vram| == MapBytes && 0 <= k.row < MapSide && k.row != ScreenRows && k.col == 0 && !k.scrolling
    requires |text| < LineWidth && Printable(text)
    ensures CanPutS(k, text + [NL])
    ensures PutS(k, text + [NL]) == k.(row := k.row + 1, vram := WriteRun(k.vram, 0, k.row, text))
  {
    PutRun(k, text);
    var k' := PutS(k, text);
    assert PutS(k', [NL]) == PutC(k', NL);
    PutSAppend(k, text, [NL]);
  }
}
