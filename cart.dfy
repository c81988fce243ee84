/**
 * The cartridge runtime (cart.c) as one object holding its globals: the
 * background map and tile memory of the video RAM, the cursor sprite, the
 * console state, the board, and the locals of `main` that live for a whole
 * round (player, cursor pixel position, end flag). Waiting for the vertical
 * blank before a write is hardware timing and is not modelled: a write
 * happens immediately.
 */
module Cart {
  import opened Common
  import opened Arith
  import opened Console
  import opened Board

  /** Sprite attribute entry: y, x, tile number, flags. */
  datatype Sprite = Sprite(y: byte, x: byte, tile: byte, flags: byte)

  const TileBytes := 4096

  function Ascii(s: string): (r: seq<byte>)
    requires forall i :: 0 <= i < |s| ==> s[i] as int < 256
    ensures |r| == |s|
  {
    seq(|s|, i requires 0 <= i < |s| => s[i] as int)
  }

  /** The two kinds of line the board outline is drawn with, newline excluded. */
  const Rail: seq<byte> := Ascii("        |   |   ")
  const Rule: seq<byte> := Ascii("     ---+---+---")
  /** The outline: three rails, a rule, three rails, a rule, three rails, printed from row 3 on. */
  const Outline: seq<seq<byte>> := [Rail, Rail, Rail, Rule, Rail, Rail, Rail, Rule, Rail, Rail, Rail]
  const OutlineTop := 3

  /** Lines that gbputs prints one per row from column 0 without wrapping. */
  predicate ShortLines(lines: seq<seq<byte>>)
  {
    forall i :: 0 <= i < |lines| ==> |lines[i]| < LineWidth && Printable(lines[i])
  }

  /** The map after the first n of the lines were printed, one per row from row top on. */
  function DrawLines(vram: seq<byte>, top: int, lines: seq<seq<byte>>, n: nat): (r: seq<byte>)
    requires |vram| == MapBytes && ShortLines(lines) && n <= |lines| && 0 <= top && top + n <= MapSide
    ensures |r| == MapBytes
  {
    if n == 0 then vram
    else WriteRun(DrawLines(vram, top, lines, n - 1), 0, top + n - 1, lines[n - 1])
  }

  /** Printing the lines leaves the rows outside top .. top + n - 1 alone. */
  lemma {:induction false} DrawLinesElsewhere(vram: seq<byte>, top: int, lines: seq<seq<byte>>, n: nat, j: int)
    requires |vram| == MapBytes && ShortLines(lines) && n <= |lines| && 0 <= top && top + n <= MapSide
    requires 0 <= j < MapBytes && !(MapIndex(0, top) <= j < MapIndex(0, top + n))
    ensures DrawLines(vram, top, lines, n)[j] == vram[j]
  {
    if n > 0 {
      var v := DrawLines(vram, top, lines, n - 1);
      DrawLinesElsewhere(vram, top, lines, n - 1, j);
      WriteRunElsewhere(v, 0, top + n - 1, lines[n - 1], j);
    }
  }

  /** Every character of a printed line is on the map where it was printed. */
  lemma {:induction false} DrawLinesAt(vram: seq<byte>, top: int, lines: seq<seq<byte>>, n: nat, x: int, row: int)
    requires |vram| == MapBytes && ShortLines(lines) && n <= |lines| && 0 <= top && top + n <= MapSide
    requires top <= row < top + n && 0 <= x < |lines[row - top]|
    ensures DrawLines(vram, top, lines, n)[MapIndex(x, row)] == lines[row - top][x]
  {
    var v := DrawLines(vram, top, lines, n - 1);
    var r := top + n - 1;
    WriteRunAt(v, 0, r, lines[n - 1]);
    if row == r {
      assert MapIndex(0 + x, r) == MapIndex(x, row);
    } else {
      DrawLinesAt(vram, top, lines, n - 1, x, row);
      WriteRunElsewhere(v, 0, r, lines[n - 1], MapIndex(x, row));
    }
  }

  /** The screen position of board cell (cx, cy). */
  function CellColumn(cx: int): int { 6 + cx * 4 }
  function CellRow(cy: int): int { 4 + cy * 4 }

  lemma OutlineFacts()
    ensures |Outline| == 11 && ShortLines(Outline)
    ensures forall cx, cy :: 0 <= cx < 3 && 0 <= cy < 3 ==> RowHasBlankAt(Outline, CellRow(cy) - OutlineTop, CellColumn(cx))
  {
    assert Printable(Rail) && Printable(Rule);
    assert Rail[6] == Blank && Rail[10] == Blank && Rail[14] == Blank;
    assert Outline[1] == Outline[5] == Outline[9] == Rail;
    forall cx, cy | 0 <= cx < 3 && 0 <= cy < 3
      ensures RowHasBlankAt(Outline, CellRow(cy) - OutlineTop, CellColumn(cx))
    {
      assert CellRow(cy) - OutlineTop == 1 || CellRow(cy) - OutlineTop == 5 || CellRow(cy) - OutlineTop == 9;
      assert CellColumn(cx) == 6 || CellColumn(cx) == 10 || CellColumn(cx) == 14;
    }
  }

  predicate RowHasBlankAt(lines: seq<seq<byte>>, i: int, x: int)
  {
    0 <= i < |lines| && 0 <= x < |lines[i]| && lines[i][x] == Blank
  }

  /** Lines with blanks where the marks go erase the marks of the previous round. */
  lemma ErasesMarks(vram: seq<byte>, top: int, lines: seq<seq<byte>>)
    requires |vram| == MapBytes && ShortLines(lines) && 0 <= top && top + |lines| <= MapSide
    requires forall cx, cy :: 0 <= cx < 3 && 0 <= cy < 3 ==> RowHasBlankAt(lines, CellRow(cy) - top, CellColumn(cx))
    ensures forall cx, cy :: 0 <= cx < 3 && 0 <= cy < 3 ==>
      DrawLines(vram, top, lines, |lines|)[MapIndex(CellColumn(cx), CellRow(cy))] == Blank
  {
    forall cx, cy | 0 <= cx < 3 && 0 <= cy < 3
      ensures DrawLines(vram, top, lines, |lines|)[MapIndex(CellColumn(cx), CellRow(cy))] == Blank
    {
      assert RowHasBlankAt(lines, CellRow(cy) - top, CellColumn(cx));
      DrawLinesAt(vram, top, lines, |lines|, CellColumn(cx), CellRow(cy));
    }
  }

  /** The outline has blanks where the marks go, so drawing it erases the previous round's marks. */
  lemma OutlineErasesMarks(vram: seq<byte>)
    requires |vram| == MapBytes
    ensures ShortLines(Outline)
    ensures forall cx, cy :: 0 <= cx < 3 && 0 <= cy < 3 ==>
      DrawLines(vram, OutlineTop, Outline, |Outline|)[MapIndex(CellColumn(cx), CellRow(cy))] == Blank
  {
    OutlineFacts();
    ErasesMarks(vram, OutlineTop, Outline);
  }

  /** Printing line n of lines, then a newline, from column 0 of its row. */
  lemma PrintLineStep(k: Console, v0: seq<byte>, top: int, lines: seq<seq<byte>>, n: nat, line: seq<byte>)
    requires |v0| == MapBytes && ShortLines(lines) && n < |lines| && line == lines[n]
    requires 0 <= top && top + n < MapSide && top + n != ScreenRows
    requires k.col == 0 && k.row == top + n && !k.scrolling && k.vram == DrawLines(v0, top, lines, n)
    ensures CanPutS(k, line + [NL])
    ensures PutS(k, line + [NL]) == k.(row := k.row + 1, vram := DrawLines(v0, top, lines, n + 1))
  {
    LineThenNewline(k, line);
  }

  function Glyph(player: int): byte
  {
    if player == 1 then 'X' as int else 'O' as int
  }

  /** The digit of the result banner. */
  function ResultDigit(o: Outcome): byte
  {
    match o
    case Player1Wins => '1' as int
    case Player2Wins => '2' as int
    case _ => '0' as int
  }

  /** The banner "@1", "@2" or "@0" at the top left once the round has an outcome. */
  function Banner(vram: seq<byte>, o: Outcome): (r: seq<byte>)
    requires |vram| == MapBytes
    ensures |r| == MapBytes
    ensures o == InProgress ==> r == vram
    ensures o != InProgress ==> r[MapIndex(0, 0)] == '@' as int && r[MapIndex(1, 0)] == ResultDigit(o)
  {
    if o == InProgress then vram
    else WithTile(WithTile(vram, 0, 0, '@' as int), 1, 0, ResultDigit(o))
  }

  /** The mark of an accepted move drawn on its cell. */
  function Marked(vram: seq<byte>, accepted: bool, cx: int, cy: int, player: int): (r: seq<byte>)
    requires |vram| == MapBytes && (accepted ==> 0 <= cx < 3 && 0 <= cy < 3)
    ensures |r| == MapBytes
  {
    if accepted then WithTile(vram, CellColumn(cx), CellRow(cy), Glyph(player)) else vram
  }

  /** The map of a cleared screen. */
  const BlankMap: seq<byte> := seq(MapBytes, _ => Blank)

  class Cart {
    /** LO_MAP: the 32x32 background map, row-major. */
    const bg: array<byte>
    /** LO_TILES: 256 tiles of 16 bytes. */
    const tileMem: array<byte>
    /** Sprite 0, the cursor. */
    var sprite: Sprite
    var charPosX: int
    var charPosY: int
    var scrolling: bool
    var scrollX: int
    var scrollY: int
    const field: array2<int>
    var xp: int
    var yp: int
    // locals of main that persist over a round
    var player: int
    var x: int
    var y: int
    var roundOver: bool

    ghost predicate Valid()
      reads this
    {
      bg.Length == MapBytes && tileMem.Length == TileBytes && IsBoard(field) && bg != tileMem
    }

    /** The invariant of a round in progress. */
    ghost predicate Playing()
      reads this, field
      requires Valid()
    {
      !roundOver && (player == 1 || player == 2) && InScreen(x, y) && ValidBoard(field)
    }

    function Screen(): Console
      reads this, bg
    {
      Console(charPosX, charPosY, scrolling, scrollX, scrollY, bg[..])
    }

    /** Power-on state: the globals are zero, video memory and sprite are cleared. */
    constructor ()
      ensures Valid() && fresh(bg) && fresh(tileMem) && fresh(field)
      ensures forall i, j :: 0 <= i < 3 && 0 <= j < 3 ==> field[i, j] == 0
      ensures charPosX == 0 && charPosY == 0 && !scrolling && scrollX == 0 && scrollY == 0
    {
      bg := new byte[MapBytes];
      tileMem := new byte[TileBytes];
      field := new int[3, 3]((i, j) => 0);
      sprite := Sprite(0, 0, 0, 0);
      charPosX, charPosY, scrolling := 0, 0, false;
      scrollX, scrollY := 0, 0;
      xp, yp := 0, 0;
      player, x, y, roundOver := 1, 0, 0, false;
    }

    /** set_tile: map cell (tx, ty) receives tile `id`, truncated to a byte. */
    method SetTile(id: int, tx: int, ty: int)
      requires Valid() && 0 <= tx < MapSide && 0 <= ty < MapSide
      modifies bg
      ensures bg[..] == WithTile(old(bg[..]), tx, ty, id % 256)
    {
      bg[MapIndex(tx, ty)] := id % 256;
    }

    /** set_scroll: record the scroll position (the register write is hardware). */
    method SetScroll(sx: int, sy: int)
      modifies this`scrollX, this`scrollY
      ensures scrollX == sx && scrollY == sy
    {
      scrollX := sx;
      scrollY := sy;
    }

    /** clear: every map cell becomes a blank. */
    method Clear()
      requires Valid()
      modifies bg
      ensures forall j :: 0 <= j < MapBytes ==> bg[j] == Blank
    {
      for i := 0 to MapSide
        invariant forall m :: 0 <= m < MapBytes && m % MapSide < i ==> bg[m] == Blank
      {
        for j := 0 to MapSide
          invariant forall m :: 0 <= m < MapBytes && (m % MapSide < i || (m % MapSide == i && m / MapSide < j)) ==> bg[m] == Blank
        {
          SetTile(Blank, i, j);
        }
      }
    }

    /** gbputc: emit one character on the console. */
    method Gbputc(c: byte)
      requires Valid() && CanPutC(Screen(), c)
      modifies bg, this`charPosX, this`charPosY, this`scrolling, this`scrollX, this`scrollY
      ensures Screen() == PutC(old(Screen()), c)
    {
      ghost var k := Screen();
      var yScroll := false;
      if c == NL {
        charPosX := 0;
        charPosY := charPosY + 1;
        yScroll := true;
      } else {
        if charPosY == MapSide {
          charPosY := 0;
        }
        SetTile(c, charPosX, charPosY);
        if !yScroll {
          charPosX := charPosX + 1;
        }
        if charPosX == LineWidth {
          charPosY := charPosY + 1;
          charPosX := 0;
          yScroll := true;
        }
        if charPosY == ScreenRows {
          scrolling := true;
        }
      }
      ghost var pre := if c == NL then k.(col := 0, row := k.row + 1)
        else
          var drawn := k.(row := DrawRow(k.row), vram := WithTile(k.vram, k.col, DrawRow(k.row), c));
          var moved := if yScroll then drawn.(col := 0, row := DrawRow(k.row) + 1) else drawn.(col := k.col + 1);
          moved.(scrolling := moved.scrolling || moved.row == ScreenRows);
      assert Screen() == pre;
      assert yScroll == Advances(k, c);
      assert PutC(k, c) == Scroll(pre, yScroll);
      if scrolling && yScroll {
        ScrollLine();
      }
    }

    /** The tail of gbputc once scrolling: scroll one row and blank the cursor row. */
    method ScrollLine()
      requires Valid() && scrolling && 0 <= charPosY < MapSide
      modifies bg, this`scrollX, this`scrollY
      ensures Screen() == Scroll(old(Screen()), true)
    {
      SetScroll(0, (scrollY + 1) % 32);   // (scroll_y + 1) & 0x1f
      ghost var before := bg[..];
      var i := 0;
      while i < MapSide
        modifies bg
        invariant 0 <= i <= MapSide
        invariant forall j :: 0 <= j < MapBytes ==>
          bg[j] == if MapIndex(0, charPosY) <= j < MapIndex(i, charPosY) then Blank else before[j]
      {
        SetTile(Blank, i, charPosY);
        i := i + 1;
      }
      assert bg[..] == BlankRow(before, charPosY);
    }

    /** gbputcxy: emit one character at (px, py) and put the cursor back. */
    method Gbputcxy(px: int, py: int, c: byte)
      requires Valid() && CanPutC(MoveTo(Screen(), px, py), c)
      modifies bg, this`charPosX, this`charPosY, this`scrolling, this`scrollX, this`scrollY
      ensures Screen() == PutCAt(old(Screen()), px, py, c)
    {
      var tmpx := charPosX;
      var tmpy := charPosY;
      charPosX := px;
      charPosY := py;
      Gbputc(c);
      charPosX := tmpx;
      charPosY := tmpy;
    }

    /** gbputs: emit the characters of s up to its terminating NUL. */
    method Gbputs(s: seq<byte>)
      requires Valid() && CanPutS(Screen(), s)
      modifies bg, this`charPosX, this`charPosY, this`scrolling, this`scrollX, this`scrollY
      ensures Screen() == PutS(old(Screen()), s)
    {
      var i := 0;
      while i < |s| && s[i] != 0
        invariant 0 <= i <= |s|
        invariant CanPutS(Screen(), s[i..]) && PutS(Screen(), s[i..]) == PutS(old(Screen()), s)
      {
        assert s[i..][1..] == s[i + 1..];
        Gbputc(s[i]);
        i := i + 1;
      }
    }

    /** Draw `glyph` on board cell (cx, cy) through gbputcxy; nothing else on screen changes. */
    method PutMark(cx: int, cy: int, glyph: byte)
      requires Valid() && 0 <= cx < 3 && 0 <= cy < 3 && glyph != NL
      modifies bg, this`charPosX, this`charPosY, this`scrolling, this`scrollX, this`scrollY
      ensures Screen() == old(Screen()).(vram := WithTile(old(bg[..]), CellColumn(cx), CellRow(cy), glyph))
    {
      PutCAtInPlace(Screen(), CellColumn(cx), CellRow(cy), glyph);
      Gbputcxy(CellColumn(cx), CellRow(cy), glyph);
    }

    /** setx: an "X" on board cell (cx, cy). */
    method SetX(cx: int, cy: int)
      requires Valid() && 0 <= cx < 3 && 0 <= cy < 3
      modifies bg, this`charPosX, this`charPosY, this`scrolling, this`scrollX, this`scrollY
      ensures Screen() == old(Screen()).(vram := WithTile(old(bg[..]), CellColumn(cx), CellRow(cy), 'X' as int))
    {
      PutMark(cx, cy, 'X' as int);
    }

    /** seto: an "O" on board cell (cx, cy). */
    method SetO(cx: int, cy: int)
      requires Valid() && 0 <= cx < 3 && 0 <= cy < 3
      modifies bg, this`charPosX, this`charPosY, this`scrolling, this`scrollX, this`scrollY
      ensures Screen() == old(Screen()).(vram := WithTile(old(bg[..]), CellColumn(cx), CellRow(cy), 'O' as int))
    {
      PutMark(cx, cy, 'O' as int);
    }

    /** clearxy: a blank on board cell (cx, cy). */
    method ClearXY(cx: int, cy: int)
      requires Valid() && 0 <= cx < 3 && 0 <= cy < 3
      modifies bg, this`charPosX, this`charPosY, this`scrolling, this`scrollX, this`scrollY
      ensures Screen() == old(Screen()).(vram := WithTile(old(bg[..]), CellColumn(cx), CellRow(cy), Blank))
    {
      PutMark(cx, cy, Blank);
    }

    /** The tile-copy loop of init: tile memory receives the compiled tile table. */
    method LoadTiles(table: array<byte>)
      requires Valid() && table.Length == TileBytes && table != tileMem
      modifies tileMem
      ensures tileMem[..] == table[..]
    {
      for i := 0 to 256
        invariant forall m :: 0 <= m < 16 * i ==> tileMem[m] == table[m]
      {
        for j := 0 to 16
          invariant forall m :: 0 <= m < 16 * i + j ==> tileMem[m] == table[m]
        {
          tileMem[16 * i + j] := table[16 * i + j];
        }
      }
    }

    /** The board cell under the cursor, -1 in a coordinate left of or above the board. */
    function TargetCell(): (int, int)
      reads this
    {
      (PixelToCell(x, BoardLeft), PixelToCell(y, BoardTop))
    }

    /** A press of A on an empty cell of the board is a move. */
    predicate Accepts(action: int)
      requires IsBoard(field)
      reads this, field
    {
      var (cx, cy) := TargetCell();
      action == 1 && 0 <= cx < 3 && 0 <= cy < 3 && field[cx, cy] == 0
    }

    /** The start of a round: reset the state and the board, draw the outline, place the cursor. */
    method BeginRound()
      requires Valid()
      modifies this`roundOver, this`charPosX, this`charPosY, this`scrolling, this`scrollX, this`scrollY
      modifies this`player, this`x, this`y, this`sprite, field, bg
      ensures Playing()
      ensures player == 1 && x == 80 && y == 70 && sprite == Sprite(70, 80, 'Q' as int, 0)
      ensures forall i, j :: 0 <= i < 3 && 0 <= j < 3 ==> field[i, j] == 0
      ensures charPosX == 0 && charPosY == OutlineTop + |Outline| && !scrolling
      ensures scrollX == old(scrollX) && scrollY == old(scrollY)
      ensures ShortLines(Outline) && bg[..] == DrawLines(old(bg[..]), OutlineTop, Outline, |Outline|)
    {
      roundOver := false;
      charPosX, charPosY, scrolling := 0, 0, false;
      player := 1;
      ResetBoard();
      charPosX, charPosY := 0, OutlineTop;
      PrintOutline();
      y, x := 70, 80;
      sprite := Sprite(y, x, 'Q' as int, 0);
    }

    /** The board-reset loops at the start of a round: every cell becomes empty. */
    method ResetBoard()
      requires Valid()
      modifies field
      ensures forall i, j :: 0 <= i < 3 && 0 <= j < 3 ==> field[i, j] == 0
    {
      for i := 0 to 3
        invariant forall i', j' :: 0 <= i' < i && 0 <= j' < 3 ==> field[i', j'] == 0
      {
        for j := 0 to 3
          invariant forall i', j' :: 0 <= i' < 3 && 0 <= j' < 3 && (i' < i || (i' == i && j' < j)) ==> field[i', j'] == 0
        {
          field[i, j] := 0;
        }
      }
    }

    /** gbputs of a short line followed by a newline, from column 0 of a row other than 18, without scrolling. */
    method PutLine(line: seq<byte>)
      requires Valid() && charPosX == 0 && 0 <= charPosY < MapSide && charPosY != ScreenRows && !scrolling
      requires |line| < LineWidth && Printable(line)
      modifies bg, this`charPosX, this`charPosY, this`scrolling, this`scrollX, this`scrollY
      ensures Screen() == old(Screen()).(row := old(charPosY) + 1, vram := WriteRun(old(bg[..]), 0, old(charPosY), line))
    {
      LineThenNewline(Screen(), line);
      Gbputs(line + [NL]);
    }

    /** The eleven gbputs calls that draw the board outline from row 3 on. */
    method PrintOutline()
      requires Valid() && charPosX == 0 && charPosY == OutlineTop && !scrolling
      modifies bg, this`charPosX, this`charPosY, this`scrolling, this`scrollX, this`scrollY
      ensures ShortLines(Outline)
      ensures Screen() == old(Screen()).(row := OutlineTop + |Outline|, vram := DrawLines(old(bg[..]), OutlineTop, Outline, |Outline|))
    {
      ghost var v0 := bg[..];
      OutlineFacts();
      PutOutlineBlock(v0, Outline, 0, 4);
      PutOutlineBlock(v0, Outline, 4, 8);
      PutOutlineTail(v0, Outline, 8, 11);
    }

    /** Outline lines n to n + 3 (three rails and a rule, for n = 0 and n = 4), after the first n were drawn from v0 on. */
    method PutOutlineBlock(ghost v0: seq<byte>, lines: seq<seq<byte>>, n: nat, m: nat)
      requires Valid() && |v0| == MapBytes && ShortLines(lines) && m == n + 4 && m <= |lines| && OutlineTop + |lines| <= ScreenRows
      requires charPosX == 0 && charPosY == OutlineTop + n && !scrolling
      requires bg[..] == DrawLines(v0, OutlineTop, lines, n)
      modifies bg, this`charPosX, this`charPosY, this`scrolling, this`scrollX, this`scrollY
      ensures charPosX == 0 && charPosY == OutlineTop + m && !scrolling
      ensures scrollX == old(scrollX) && scrollY == old(scrollY)
      ensures bg[..] == DrawLines(v0, OutlineTop, lines, m)
    {
      PutOutlineLine(v0, lines, n);
      PutOutlineLine(v0, lines, n + 1);
      PutOutlineLine(v0, lines, n + 2);
      PutOutlineLine(v0, lines, n + 3);
    }

    /** Outline lines n to n + 2 (the last three rails, for n = 8), after the first n were drawn from v0 on. */
    method PutOutlineTail(ghost v0: seq<byte>, lines: seq<seq<byte>>, n: nat, m: nat)
      requires Valid() && |v0| == MapBytes && ShortLines(lines) && m == n + 3 && m <= |lines| && OutlineTop + |lines| <= ScreenRows
      requires charPosX == 0 && charPosY == OutlineTop + n && !scrolling
      requires bg[..] == DrawLines(v0, OutlineTop, lines, n)
      modifies bg, this`charPosX, this`charPosY, this`scrolling, this`scrollX, this`scrollY
      ensures charPosX == 0 && charPosY == OutlineTop + m && !scrolling
      ensures scrollX == old(scrollX) && scrollY == old(scrollY)
      ensures bg[..] == DrawLines(v0, OutlineTop, lines, m)
    {
      PutOutlineLine(v0, lines, n);
      PutOutlineLine(v0, lines, n + 1);
      PutOutlineLine(v0, lines, n + 2);
    }

    /** The gbputs of outline line n, after the first n lines were drawn from v0 on. */
    method PutOutlineLine(ghost v0: seq<byte>, lines: seq<seq<byte>>, n: nat)
      requires Valid() && |v0| == MapBytes && ShortLines(lines) && n < |lines| && OutlineTop + |lines| <= ScreenRows
      requires charPosX == 0 && charPosY == OutlineTop + n && !scrolling
      requires bg[..] == DrawLines(v0, OutlineTop, lines, n)
      modifies bg, this`charPosX, this`charPosY, this`scrolling, this`scrollX, this`scrollY
      ensures charPosX == 0 && charPosY == OutlineTop + n + 1 && !scrolling
      ensures scrollX == old(scrollX) && scrollY == old(scrollY)
      ensures bg[..] == DrawLines(v0, OutlineTop, lines, n + 1)
    {
      PutLine(lines[n]);
    }

    /** The direction pad read of a frame: a single pressed direction moves the cursor one pixel. */
    method MoveCursor(dpad: int)
      requires InScreen(x, y)
      modifies this`x, this`y, this`sprite
      ensures (x, y) == CursorStep(old(x), old(y), dpad)
      ensures sprite == old(sprite).(y := y, x := x)
    {
      if dpad == 8 {
        y := y + 1;
        if y > 144 + 8 { y := 0; }
      } else if dpad == 4 {
        y := y - 1;
        if y < 0 { y := 144 + 8; }
      } else if dpad == 2 {
        x := x - 1;
        if x < 0 { x := 172 + 8; }
      } else if dpad == 1 {
        x := x + 1;
        if x > 172 + 8 { x := 0; }
      }
      sprite := sprite.(y := y, x := x);
    }

    /**
     * The action button read of a frame: A alone converts the cursor position
     * to a board cell and, when that cell is empty, the current player takes it
     * and the turn passes.
     */
    method Select(action: int)
      requires Valid() && InScreen(x, y) && (player == 1 || player == 2)
      modifies this`xp, this`yp, this`player, field
      modifies bg, this`charPosX, this`charPosY, this`scrolling, this`scrollX, this`scrollY
      ensures action == 1 ==> (xp, yp) == TargetCell()
      ensures action != 1 ==> xp == old(xp) && yp == old(yp)
      ensures var (cx, cy) := TargetCell(); old(Accepts(action)) ==>
        && field[cx, cy] == old(player) && player == 3 - old(player)
        && Screen() == old(Screen()).(vram := WithTile(old(bg[..]), CellColumn(cx), CellRow(cy), Glyph(old(player))))
      ensures !old(Accepts(action)) ==> player == old(player) && Screen() == old(Screen())
      ensures var (cx, cy) := TargetCell(); forall i, j :: 0 <= i < 3 && 0 <= j < 3 && !(old(Accepts(action)) && i == cx && j == cy) ==>
        field[i, j] == old(field[i, j])
    {
      if action == 1 {
        xp, yp := -1, -1;
        if x >= BoardLeft {
          xp := Div(x - BoardLeft, CellSize);
        }
        if y >= BoardTop {
          yp := Div(y - BoardTop, CellSize);
        }
        if 0 <= xp < 3 && 0 <= yp < 3 {
          if field[xp, yp] == 0 {
            Place(xp, yp);
          }
        }
      }
    }

    /** A move on the empty cell (cx, cy): the player's mark is drawn and stored, and the turn passes. */
    method Place(cx: int, cy: int)
      requires Valid() && 0 <= cx < 3 && 0 <= cy < 3 && (player == 1 || player == 2)
      modifies this`player, field
      modifies bg, this`charPosX, this`charPosY, this`scrolling, this`scrollX, this`scrollY
      ensures field[cx, cy] == old(player) && player == 3 - old(player)
      ensures Screen() == old(Screen()).(vram := WithTile(old(bg[..]), CellColumn(cx), CellRow(cy), Glyph(old(player))))
      ensures forall i, j :: 0 <= i < 3 && 0 <= j < 3 && !(i == cx && j == cy) ==> field[i, j] == old(field[i, j])
    {
      if player == 1 {
        SetX(cx, cy);
        field[cx, cy] := 1;
        player := 2;
      } else if player == 2 {
        SetO(cx, cy);
        field[cx, cy] := 2;
        player := 1;
      }
    }

    /** The end-of-frame test: a win for player 1, for player 2, or a full board ends the round with a banner. */
    method ShowResult()
      requires Valid()
      modifies this`roundOver, bg, this`charPosX, this`charPosY, this`scrolling, this`scrollX, this`scrollY
      ensures roundOver == (old(roundOver) || OutcomeOf(field) != InProgress)
      ensures Screen() == old(Screen()).(vram := Banner(old(bg[..]), OutcomeOf(field)))
    {
      if CheckWin(field) == 1 {
        PutBanner('1' as int);
        roundOver := true;
      } else if CheckWin(field) == 2 {
        PutBanner('2' as int);
        roundOver := true;
      } else if Full(field) == 1 {
        PutBanner('0' as int);
        roundOver := true;
      }
    }

    /** The two gbputcxy calls of a result: '@' at (0, 0), then the digit at (1, 0). */
    method PutBanner(digit: byte)
      requires Valid() && digit != NL
      modifies bg, this`charPosX, this`charPosY, this`scrolling, this`scrollX, this`scrollY
      ensures Screen() == old(Screen()).(vram := WithTile(WithTile(old(bg[..]), 0, 0, '@' as int), 1, 0, digit))
    {
      PutCAtInPlace(Screen(), 0, 0, '@' as int);
      Gbputcxy(0, 0, '@' as int);
      PutCAtInPlace(Screen(), 1, 0, digit);
      Gbputcxy(1, 0, digit);
    }

    /** One pass of the frame loop, given the inverted direction and action nibbles read in it. */
    method Frame(dpad: int, action: int)
      requires Valid() && Playing()
      modifies this`sprite, this`x, this`y, this`xp, this`yp, this`player, this`roundOver, field
      modifies bg, this`charPosX, this`charPosY, this`scrolling, this`scrollX, this`scrollY
      ensures (x, y) == CursorStep(old(x), old(y), dpad)
      ensures sprite == Sprite(y, x, old(player) + 'P' as int, old(sprite.flags))
      ensures action == 1 ==> (xp, yp) == TargetCell()
      ensures action != 1 ==> xp == old(xp) && yp == old(yp)
      ensures var (cx, cy) := TargetCell();
        var accepted := action == 1 && 0 <= cx < 3 && 0 <= cy < 3 && old(field[cx, cy]) == 0;
        && (accepted ==> field[cx, cy] == old(player) && player == 3 - old(player))
        && (!accepted ==> player == old(player))
        && (forall i, j :: 0 <= i < 3 && 0 <= j < 3 && !(accepted && i == cx && j == cy) ==> field[i, j] == old(field[i, j]))
        && Screen() == old(Screen()).(vram := Banner(Marked(WithTile(old(bg[..]), 10, 0, '0' as int + old(player)),
                                                            accepted, cx, cy, old(player)), OutcomeOf(field)))
      ensures roundOver == (OutcomeOf(field) != InProgress)
      ensures ValidBoard(field) && (player == 1 || player == 2) && InScreen(x, y)
    {
      Turn(dpad, action);
      ShowResult();
    }

    /** The part of a frame before the result test: show the player, move the cursor, take a move. */
    method Turn(dpad: int, action: int)
      requires Valid() && Playing()
      modifies this`sprite, this`x, this`y, this`xp, this`yp, this`player, field
      modifies bg, this`charPosX, this`charPosY, this`scrolling, this`scrollX, this`scrollY
      ensures (x, y) == CursorStep(old(x), old(y), dpad)
      ensures sprite == Sprite(y, x, old(player) + 'P' as int, old(sprite.flags))
      ensures action == 1 ==> (xp, yp) == TargetCell()
      ensures action != 1 ==> xp == old(xp) && yp == old(yp)
      ensures var (cx, cy) := TargetCell();
        var accepted := action == 1 && 0 <= cx < 3 && 0 <= cy < 3 && old(field[cx, cy]) == 0;
        && (accepted ==> field[cx, cy] == old(player) && player == 3 - old(player))
        && (!accepted ==> player == old(player))
        && (forall i, j :: 0 <= i < 3 && 0 <= j < 3 && !(accepted && i == cx && j == cy) ==> field[i, j] == old(field[i, j]))
        && Screen() == old(Screen()).(vram := Marked(WithTile(old(bg[..]), 10, 0, '0' as int + old(player)),
                                                     accepted, cx, cy, old(player)))
      ensures ValidBoard(field) && (player == 1 || player == 2) && InScreen(x, y)
    {
      ShowPlayer();
      ghost var shown := bg[..];
      MoveCursor(dpad);
      ghost var accepted := Accepts(action);
      ghost var (cx, cy) := TargetCell();
      Select(action);
      assert bg[..] == Marked(shown, accepted, cx, cy, old(player));
    }

    /** The start of a frame: the cursor sprite and the digit at (10, 0) show whose turn it is. */
    method ShowPlayer()
      requires Valid() && (player == 1 || player == 2)
      modifies this`sprite, bg, this`charPosX, this`charPosY, this`scrolling, this`scrollX, this`scrollY
      ensures sprite == old(sprite).(tile := player + 'P' as int)
      ensures Screen() == old(Screen()).(vram := WithTile(old(bg[..]), 10, 0, '0' as int + player))
    {
      sprite := sprite.(tile := player + 'P' as int);   // 'P' + 1 is 'Q' (X), 'P' + 2 is 'R' (O)
      PutCAtInPlace(Screen(), 10, 0, '0' as int + player);
      Gbputcxy(10, 0, '0' as int + player);
    }

    /** After a round: hide the player indicator, and once Start is pressed erase the banner and begin a new round. */
    method Restart()
      requires Valid()
      modifies this`roundOver, this`charPosX, this`charPosY, this`scrolling, this`scrollX, this`scrollY
      modifies this`player, this`x, this`y, this`sprite, field, bg
      ensures Playing()
      ensures player == 1 && x == 80 && y == 70 && sprite == Sprite(70, 80, 'Q' as int, 0)
      ensures forall i, j :: 0 <= i < 3 && 0 <= j < 3 ==> field[i, j] == 0
      ensures charPosX == 0 && charPosY == OutlineTop + |Outline| && !scrolling
      ensures scrollX == old(scrollX) && scrollY == old(scrollY)
      ensures ShortLines(Outline) && bg[..] == DrawLines(WithTile(WithTile(WithTile(old(bg[..]), 10, 0, 0), 0, 0, Blank), 1, 0, Blank), OutlineTop, Outline, |Outline|)
    {
      PutCAtInPlace(Screen(), 10, 0, 0);
      Gbputcxy(10, 0, 0);
      PutCAtInPlace(Screen(), 0, 0, Blank);
      Gbputcxy(0, 0, Blank);
      PutCAtInPlace(Screen(), 1, 0, Blank);
      Gbputcxy(1, 0, Blank);
      BeginRound();
    }

    /** The prologue of main followed by the first round. */
    method Boot()
      requires Valid()
      modifies this`roundOver, this`charPosX, this`charPosY, this`scrolling, this`scrollX, this`scrollY
      modifies this`player, this`x, this`y, this`sprite, field, bg
      ensures Playing()
      ensures player == 1 && x == 80 && y == 70 && sprite == Sprite(70, 80, 'Q' as int, 0)
      ensures forall i, j :: 0 <= i < 3 && 0 <= j < 3 ==> field[i, j] == 0
      ensures ShortLines(Outline) && Screen() == Console(0, OutlineTop + |Outline|, false, 0, 0, DrawLines(BlankMap, OutlineTop, Outline, |Outline|))
    {
      Clear();
      assert bg[..] == BlankMap;
      SetScroll(0, 0);
      x, y := 0, 0;
      BeginRound();
    }
  }
}
