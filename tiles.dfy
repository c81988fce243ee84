/**
 * The tile compiler (convtiles.c): a character-driven state machine that
 * reads a tile description and ORs pixel bits into a table of 256 tiles of
 * 16 bytes, and a serialiser that prints the table as C source.
 *
 * The table `tiles[256][16]` is flat here: byte b of tile t is entry 16*t+b.
 * The input is the sequence of bytes `fgetc` returns before EOF.
 */
module TileCompiler {
  import opened Common
  import Hex

  const TableBytes := 4096
  /** Capacity of the `reading` array of tile names. */
  const MaxNames := 256

  datatype State = Normal | Comment | Names | NameChar | NameAfterChar | NameNum
                 | Tiles | TileIgnore | TilePix | TileHeadline | Error

  /**
   * The locals of read_tiles and the table: the names of the tiles being read
   * (`reading[0..n_reading)`), the pixel column and row, the line number.
   */
  datatype Parser = Parser(state: State, reading: seq<byte>, col: int, row: int, line: int, tiles: seq<bv8>)

  /** The parser before the first character: state S_NORMAL, line 1, the table cleared. */
  function Init(): (p: Parser)
    ensures |p.tiles| == TableBytes && forall k :: 0 <= k < TableBytes ==> p.tiles[k] == 0
  {
    Parser(Normal, [], 0, 0, 1, seq(TableBytes, _ => 0))
  }

  predicate IsDigit(c: byte) { '0' as int <= c <= '9' as int }

  /** Glyphs that set the plane-0 bit, the plane-1 bit, or neither. */
  predicate Plane0Glyph(c: byte) { c == '-' as int || c == '1' as int }
  predicate Plane1Glyph(c: byte) { c == '+' as int || c == '2' as int }
  predicate BothGlyph(c: byte) { c == 'X' as int || c == '*' as int || c == '3' as int }
  predicate SetsPlane0(c: byte) { Plane0Glyph(c) || BothGlyph(c) }
  predicate SetsPlane1(c: byte) { Plane1Glyph(c) || BothGlyph(c) }

  /** The bit of pixel column col within its tile: 0x80 >> (col % 8). */
  function Mask(col: int): (m: bv8)
    requires 0 <= col
  {
    (0x80 as bv8) >> (col % 8)
  }

  /** The index of byte `plane` of pixel row `row` of the tile under column col. */
  function PixelByte(p: Parser, plane: int): int
    requires 0 <= p.col && p.col / 8 < |p.reading|
  {
    16 * p.reading[p.col / 8] + 2 * p.row + plane
  }

  /**
   * What read_tiles needs of the next character so that it stays inside its
   * arrays: a quoted name has room in `reading`, and a pixel that sets a bit
   * lies under a listed name on one of rows 0-7.
   */
  predicate InBounds(p: Parser, c: byte)
  {
    && (p.state == NameChar ==> |p.reading| < MaxNames)
    && (p.state == TilePix && (SetsPlane0(c) || SetsPlane1(c)) ==> 0 <= p.col && p.col / 8 < |p.reading| && 0 <= p.row < 8)
  }

  /** A table of 4096 bytes. */
  predicate Sized(p: Parser) { |p.tiles| == TableBytes }

  function Or(t: seq<bv8>, k: int, m: bv8): (r: seq<bv8>)
    requires 0 <= k < |t|
    ensures |r| == |t| && r[k] == t[k] | m
    ensures forall j :: 0 <= j < |t| && j != k ==> r[j] == t[j]
  {
    t[k := t[k] | m]
  }

  /** The S_TILE_PIX effect on the table. */
  function Plot(p: Parser, c: byte): (t: seq<bv8>)
    requires Sized(p) && p.state == TilePix && InBounds(p, c)
    ensures |t| == TableBytes
    // a blank leaves the table alone; a glyph changes only the two bit-plane bytes of the current pixel row
    ensures !(SetsPlane0(c) || SetsPlane1(c)) ==> t == p.tiles
    ensures SetsPlane0(c) || SetsPlane1(c) ==>
      forall j :: 0 <= j < TableBytes && j != PixelByte(p, 0) && j != PixelByte(p, 1) ==> t[j] == p.tiles[j]
  {
    if c == ' ' as int || c == '0' as int then p.tiles
    else if Plane0Glyph(c) then Or(p.tiles, PixelByte(p, 0), Mask(p.col))
    else if Plane1Glyph(c) then Or(p.tiles, PixelByte(p, 1), Mask(p.col))
    else if BothGlyph(c) then Or(Or(p.tiles, PixelByte(p, 0), Mask(p.col)), PixelByte(p, 1), Mask(p.col))
    else p.tiles
  }

  /** One character in a state other than S_ERROR, after the line count was updated. */
  function Step(p: Parser, c: byte): (r: Parser)
    requires Sized(p) && p.state != Error && p.state != NameNum && InBounds(p, c)
    ensures Sized(r) && r.line == p.line
    ensures p.state != TilePix ==> r.tiles == p.tiles  // only a pixel character draws
  {
    match p.state
    case Normal =>
      if c == '>' as int then p.(state := Names, reading := [])
      else if c == '#' as int then p.(state := Comment)
      else if c == ' ' as int || c == NL then p
      else p.(state := Error)
    case Comment =>
      if c == NL then p.(state := Normal) else p
    case Names =>
      if c == ' ' as int then p
      else if c == '\'' as int then p.(state := NameChar)
      else if IsDigit(c) then p.(state := NameNum)
      else if c == NL then p.(state := TileHeadline)
      else p.(state := Error)
    case NameChar =>
      p.(state := NameAfterChar, reading := p.reading + [c])
    case NameAfterChar =>
      if c == '\'' as int then p.(state := Names) else p.(state := Error)
    case TileHeadline =>
      if c == NL then p.(row := -1, state := Tiles) else p.(row := -1)
    case Tiles =>
      if '0' as int <= c <= '7' as int then p.(row := p.row + 1, col := 0, state := TileIgnore)
      else p.(row := p.row + 1, state := Error)
    case TileIgnore =>
      if c == NL then p.(state := if p.row == 7 then Normal else Tiles)
      else p.(state := TilePix)
    case TilePix =>
      // the assignments of the newline and error branches are overwritten by `state = S_TILE_IGNORE`
      p.(tiles := Plot(p, c), col := p.col + 1, state := TileIgnore)
  }

  /** `if (c == '\n') ++line;`, done for every character before the state dispatch. */
  function CountLine(p: Parser, c: byte): (r: Parser)
    ensures r.state == p.state && r.reading == p.reading && r.tiles == p.tiles && r.col == p.col && r.row == p.row
    ensures r.line == p.line + 1 <==> c == NL
    ensures r.line == p.line || r.line == p.line + 1
  {
    if c == NL then p.(line := p.line + 1) else p
  }

  /**
   * How reading ends: at EOF with the final parser, with "Parsing error on
   * line N" when a character is read in S_ERROR, or in one of the two paths
   * not modelled: a numeric tile name, or an access outside the arrays.
   */
  datatype Outcome = Done(final: Parser) | Fatal(line: int) | NumericName | OutOfRange

  function Run(p: Parser, s: seq<byte>): (o: Outcome)
    requires Sized(p) && p.state != NameNum
    ensures o.Done? ==> Sized(o.final) && o.final.state != NameNum
    decreases |s|
  {
    if s == [] then Done(p)
    else
      var q := CountLine(p, s[0]);
      if q.state == Error then Fatal(q.line)
      else if !InBounds(q, s[0]) then OutOfRange
      else
        var r := Step(q, s[0]);
        if r.state == NameNum then NumericName else Run(r, s[1..])
  }

  /** The result read_tiles reports. */
  datatype ReadResult = Compiled | ParseError(line: int)

  /** An input read_tiles handles within the model: no numeric name and no out-of-range access. */
  predicate Supported(input: seq<byte>)
  {
    Run(Init(), input).Done? || Run(Init(), input).Fatal?
  }

  /** Every bit set in a is set in b. */
  predicate Covers(a: seq<bv8>, b: seq<bv8>)
  {
    |a| == |b| && forall k :: 0 <= k < |a| ==> a[k] | b[k] == b[k]
  }

  lemma CoversTransitive(a: seq<bv8>, b: seq<bv8>, c: seq<bv8>)
    requires Covers(a, b) && Covers(b, c)
    ensures Covers(a, c)
  {
    forall k | 0 <= k < |a|
      ensures a[k] | c[k] == c[k]
    {
      assert a[k] | b[k] == b[k] && b[k] | c[k] == c[k];
    }
  }

  /** One character never clears a bit of the table. */
  lemma StepOnlySetsBits(p: Parser, c: byte)
    requires Sized(p) && p.state != Error && p.state != NameNum && InBounds(p, c)
    ensures Covers(p.tiles, Step(p, c).tiles)
  {
    var t := p.tiles;
    if p.state != TilePix {
      assert Step(p, c).tiles == t;
      CoversReflexive(t);
    } else if c == ' ' as int || c == '0' as int {
      CoversReflexive(t);
    } else if Plane0Glyph(c) {
      OrCovers(t, PixelByte(p, 0), Mask(p.col));
    } else if Plane1Glyph(c) {
      OrCovers(t, PixelByte(p, 1), Mask(p.col));
    } else if BothGlyph(c) {
      var t0 := Or(t, PixelByte(p, 0), Mask(p.col));
      OrCovers(t, PixelByte(p, 0), Mask(p.col));
      OrCovers(t0, PixelByte(p, 1), Mask(p.col));
      CoversTransitive(t, t0, Or(t0, PixelByte(p, 1), Mask(p.col)));
    } else {
      CoversReflexive(t);
    }
  }

  lemma CoversReflexive(a: seq<bv8>)
    ensures Covers(a, a)
  {
  }

  /** Setting bits of one byte clears none. */
  lemma OrCovers(t: seq<bv8>, k: int, m: bv8)
    requires 0 <= k < |t|
    ensures Covers(t, Or(t, k, m))
  {
    var r := Or(t, k, m);
    forall j | 0 <= j < |t|
      ensures t[j] | r[j] == r[j]
    {
      if j == k {
        assert r[j] == t[j] | m;
      }
    }
  }

  /** Reading a whole input never clears a bit: the table only accumulates pixels. */
  lemma {:induction false} RunOnlySetsBits(p: Parser, s: seq<byte>)
    requires Sized(p) && p.state != NameNum && Run(p, s).Done?
    ensures Covers(p.tiles, Run(p, s).final.tiles)
    decreases |s|
  {
    if s != [] {
      var q := CountLine(p, s[0]);
      var r := Step(q, s[0]);
      StepOnlySetsBits(q, s[0]);
      RunOnlySetsBits(r, s[1..]);
      CoversTransitive(p.tiles, r.tiles, Run(r, s[1..]).final.tiles);
    }
  }

  /**
   * In the pixel state every character, recognised or not, moves one column
   * on and back to the separator state; a plane glyph sets the pixel's bit in
   * its plane's byte, and no other byte changes.
   */
  lemma PixelStep(p: Parser, c: byte)
    requires Sized(p) && p.state == TilePix && InBounds(p, c)
    ensures var r := Step(p, c);
      r.state == TileIgnore && r.col == p.col + 1 && r.row == p.row && r.reading == p.reading
    ensures SetsPlane0(c) ==> Step(p, c).tiles[PixelByte(p, 0)] & Mask(p.col) == Mask(p.col)
    ensures SetsPlane1(c) ==> Step(p, c).tiles[PixelByte(p, 1)] & Mask(p.col) == Mask(p.col)
    ensures forall k :: 0 <= k < TableBytes && !(SetsPlane0(c) && k == PixelByte(p, 0)) && !(SetsPlane1(c) && k == PixelByte(p, 1)) ==>
      Step(p, c).tiles[k] == p.tiles[k]
  {
  }

  /**
   * Outside a comment and a tile block, only '>', '#', a blank and a newline
   * are accepted; a quoted name must be closed by a quote; the line after a
   * name list is skipped and resets the row to -1; a row line must start
   * with '0'-'7', and the row advances by one whatever the digit; a newline
   * after row 7 ends the block.
   */
  lemma GrammarErrors(p: Parser, c: byte)
    requires Sized(p) && p.state != Error && p.state != NameNum && InBounds(p, c)
    ensures p.state == Normal ==>
      (Step(p, c).state == Error <==> !(c == '>' as int || c == '#' as int || c == ' ' as int || c == NL))
    ensures p.state == NameAfterChar ==> (Step(p, c).state == Error <==> c != '\'' as int)
    ensures p.state == Tiles ==> (Step(p, c).state == Error <==> !('0' as int <= c <= '7' as int)) && Step(p, c).row == p.row + 1
    ensures p.state in {Comment, TileHeadline, TileIgnore, TilePix} ==> Step(p, c).state != Error
    ensures p.state == TileHeadline ==> Step(p, c).row == -1 && Step(p, c).state == (if c == NL then Tiles else TileHeadline)
    ensures p.state == TileIgnore && c == NL ==> Step(p, c).state == (if p.row == 7 then Normal else Tiles)
  {
  }

  /** One character that neither fails nor leaves the model: the run goes on from the stepped parser. */
  lemma RunCons(p: Parser, s: seq<byte>, q: Parser, r: Parser)
    requires Sized(p) && p.state != NameNum && s != []
    requires q == CountLine(p, s[0]) && q.state != Error && InBounds(q, s[0])
    requires r == Step(q, s[0]) && r.state != NameNum
    ensures Run(p, s) == Run(r, s[1..])
  {
  }

  /**
   * A quoted name appends its character, whatever it is, to the names being
   * read; a quoted newline also counts a line.
   */
  lemma QuotedName(p: Parser, c: byte)
    requires Sized(p) && p.state == Names && |p.reading| < MaxNames
    ensures Run(p, ['\'' as int, c, '\'' as int]) ==
      Done(p.(reading := p.reading + [c], line := if c == NL then p.line + 1 else p.line))
  {
    var s: seq<byte> := ['\'' as int, c, '\'' as int];
    var p1 := p.(state := NameChar);
    var q1 := p1.(line := if c == NL then p.line + 1 else p.line);
    var p2 := q1.(state := NameAfterChar, reading := p.reading + [c]);
    RunCons(p, s, p, p1);
    RunCons(p1, s[1..], q1, p2);
    RunCons(p2, s[2..], p2, p2.(state := Names));
    assert s[3..] == [];
  }

  /** The run over s + t is the run over s continued with t. */
  lemma {:induction false} RunAppend(p: Parser, s: seq<byte>, t: seq<byte>)
    requires Sized(p) && p.state != NameNum
    ensures Run(p, s).Done? ==> Run(p, s + t) == Run(Run(p, s).final, t)
    ensures !Run(p, s).Done? ==> Run(p, s + t) == Run(p, s)
    decreases |s|
  {
    if s == [] {
      assert s + t == t;
    } else {
      assert (s + t)[0] == s[0] && (s + t)[1..] == s[1..] + t;
      var q := CountLine(p, s[0]);
      if q.state != Error && InBounds(q, s[0]) && Step(q, s[0]).state != NameNum {
        RunAppend(Step(q, s[0]), s[1..], t);
      }
    }
  }

  /**
   * "Parsing error on line N" is reported exactly when some character is read
   * after the parser entered the error state; an error caused by the last
   * character of the input goes unreported.
   */
  lemma {:induction false} FatalIffErrorBeforeEnd(p: Parser, s: seq<byte>)
    requires Sized(p) && p.state != NameNum
    ensures Run(p, s).Fatal? <==>
      exists i :: 0 <= i < |s| && Run(p, s[..i]).Done? && Run(p, s[..i]).final.state == Error
    decreases |s|
  {
    if s != [] {
      assert s[..0] == [];
      var q := CountLine(p, s[0]);
      if q.state == Error {
        assert Run(p, s[..0]).Done? && Run(p, s[..0]).final.state == Error;
      } else if !InBounds(q, s[0]) || Step(q, s[0]).state == NameNum {
        forall i | 1 <= i < |s|
          ensures !Run(p, s[..i]).Done?
        {
          assert s[..i][0] == s[0];
        }
      } else {
        var r := Step(q, s[0]);
        FatalIffErrorBeforeEnd(r, s[1..]);
        assert Run(p, s) == Run(r, s[1..]);
        ErrorBeforeEndShift(p, s, r);
      }
    }
  }

  /** Some proper prefix of s leaves p in the error state. */
  ghost predicate ErrorBeforeEnd(p: Parser, s: seq<byte>)
    requires Sized(p) && p.state != NameNum
  {
    exists i :: 0 <= i < |s| && Run(p, s[..i]).Done? && Run(p, s[..i]).final.state == Error
  }

  /** When the first character takes p to r without an error, the errors of the rest are the errors of the whole. */
  lemma ErrorBeforeEndShift(p: Parser, s: seq<byte>, r: Parser)
    requires Sized(p) && p.state != NameNum && s != []
    requires CountLine(p, s[0]).state != Error && InBounds(CountLine(p, s[0]), s[0])
    requires r == Step(CountLine(p, s[0]), s[0]) && r.state != NameNum
    ensures ErrorBeforeEnd(p, s) <==> ErrorBeforeEnd(r, s[1..])
  {
    forall i | 0 <= i < |s| - 1
      ensures Run(p, s[..i + 1]) == Run(r, s[1..][..i])
    {
      assert s[..i + 1][0] == s[0] && s[..i + 1][1..] == s[1..][..i];
    }
    assert s[..0] == [];
    if ErrorBeforeEnd(r, s[1..]) {
      var i :| 0 <= i < |s| - 1 && Run(r, s[1..][..i]).Done? && Run(r, s[1..][..i]).final.state == Error;
      assert Run(p, s[..i + 1]) == Run(r, s[1..][..i]);
    }
    if ErrorBeforeEnd(p, s) {
      var i :| 0 <= i < |s| && Run(p, s[..i]).Done? && Run(p, s[..i]).final.state == Error;
      assert i != 0;
      assert Run(r, s[1..][..i - 1]) == Run(p, s[..i]);
    }
  }

  /** The line an error is reported on is the line of the character read after it. */
  lemma ErrorReportedOnNextChar(p: Parser, s: seq<byte>, c: byte)
    requires Sized(p) && p.state != NameNum && Run(p, s).Done? && Run(p, s).final.state == Error
    ensures Run(p, s + [c]) == Fatal(CountLine(Run(p, s).final, c).line)
  {
    RunAppend(p, s, [c]);
  }

  /** write_tiles' output, piece by piece. */
  function Header(name: string): string
  {
    "const unsigned char " + name + "[256][16] = {\n"
  }

  /** Byte j of tile i: "0x%02x", then ", " or, after the last byte, "}" and ',' (' ' on the last tile). */
  function Cell(t: seq<bv8>, i: int, j: int): (s: string)
    requires |t| == TableBytes && 0 <= i < 256 && 0 <= j < 16
    ensures |s| == 6
  {
    "0x" + Hex.Byte2(t[16 * i + j] as int) + (if j != 15 then ", " else "}" + (if i == 255 then " " else ","))
  }

  /** The first n bytes of tile i. */
  function Cells(t: seq<bv8>, i: int, n: int): (s: string)
    requires |t| == TableBytes && 0 <= i < 256 && 0 <= n <= 16
    ensures |s| == 6 * n
  {
    if n == 0 then "" else Cells(t, i, n - 1) + Cell(t, i, n - 1)
  }

  function Line(t: seq<bv8>, i: int): (s: string)
    requires |t| == TableBytes && 0 <= i < 256
    ensures |s| == LineLength
    ensures s[..3] == "  {" && s[3..99] == Cells(t, i, 16) && s[99..] == " /* 0x" + Hex.Byte2(i) + " */\n"
  {
    "  {" + Cells(t, i, 16) + " /* 0x" + Hex.Byte2(i) + " */\n"
  }

  const LineLength := 111

  /** The lines of the first n tiles. */
  function Lines(t: seq<bv8>, n: int): (s: string)
    requires |t| == TableBytes && 0 <= n <= 256
    ensures |s| == LineLength * n
  {
    if n == 0 then "" else Lines(t, n - 1) + Line(t, n - 1)
  }

  function Listing(t: seq<bv8>, name: string): (s: string)
    requires |t| == TableBytes
    ensures |s| == |Header(name)| + LineLength * 256 + 3
    ensures s[..|Header(name)|] == Header(name) && s[|s| - 3..] == "};\n"
  {
    Header(name) + Lines(t, 256) + "};\n"
  }

  lemma {:induction false} CellsSlice(t: seq<bv8>, i: int, n: int, j: int)
    requires |t| == TableBytes && 0 <= i < 256 && 0 <= j < n <= 16
    ensures Cells(t, i, n)[6 * j .. 6 * j + 6] == Cell(t, i, j)
    decreases n
  {
    var a, b := Cells(t, i, n - 1), Cell(t, i, n - 1);
    assert Cells(t, i, n) == a + b;
    if j < n - 1 {
      CellsSlice(t, i, n - 1, j);
      SliceOfAppendLeft(a, b, 6 * j, 6 * j + 6);
    } else {
      SliceOfAppendRight(a, b);
    }
  }

  lemma {:induction false} LinesSlice(t: seq<bv8>, n: int, i: int)
    requires |t| == TableBytes && 0 <= i < n <= 256
    ensures Lines(t, n)[LineLength * i .. LineLength * i + LineLength] == Line(t, i)
    decreases n
  {
    var a, b := Lines(t, n - 1), Line(t, n - 1);
    assert Lines(t, n) == a + b;
    if i < n - 1 {
      LinesSlice(t, n - 1, i);
      SliceOfAppendLeft(a, b, LineLength * i, LineLength * i + LineLength);
    } else {
      SliceOfAppendRight(a, b);
    }
  }

  /** A cell opens with "0x" and the two digits of its byte. */
  lemma CellParts(t: seq<bv8>, i: int, j: int)
    requires |t| == TableBytes && 0 <= i < 256 && 0 <= j < 16
    ensures Cell(t, i, j)[..2] == "0x"
    ensures Hex.Byte2Value(Cell(t, i, j)[2..4]) == Some(t[16 * i + j] as int)
  {
    var digits := Hex.Byte2(t[16 * i + j] as int);
    var rest := if j != 15 then ", " else "}" + (if i == 255 then " " else ",");
    assert Cell(t, i, j) == "0x" + digits + rest;
    assert Cell(t, i, j)[2..4] == digits;
    Hex.Byte2RoundTrip(t[16 * i + j] as int);
  }

  /** Line i holds "0x" and the digits of byte j of tile i at offset 3+6j, and the digits of i at 105. */
  lemma LineReadsBack(t: seq<bv8>, i: int, j: int)
    requires |t| == TableBytes && 0 <= i < 256 && 0 <= j < 16
    ensures Line(t, i)[3 + 6 * j .. 5 + 6 * j] == "0x"
    ensures Hex.Byte2Value(Line(t, i)[5 + 6 * j .. 7 + 6 * j]) == Some(t[16 * i + j] as int)
    ensures Hex.Byte2Value(Line(t, i)[105 .. 107]) == Some(i)
  {
    var cells := Cells(t, i, 16);
    var index := Hex.Byte2(i);
    assert Line(t, i) == "  {" + cells + " /* 0x" + index + " */\n";
    CellsSlice(t, i, 16, j);
    CellParts(t, i, j);
    assert Line(t, i)[3 .. 99] == cells;
    SliceOfSlice(Line(t, i), 3, 99, 6 * j, 6 * j + 6);
    SliceOfSlice(Line(t, i), 3 + 6 * j, 9 + 6 * j, 0, 2);
    SliceOfSlice(Line(t, i), 3 + 6 * j, 9 + 6 * j, 2, 4);
    assert Line(t, i)[105 .. 107] == index;
    Hex.Byte2RoundTrip(i);
  }

  /** The listing is the header, the 256 lines of 111 characters in order, and "};\n". */
  lemma ListingLine(t: seq<bv8>, name: string, i: int)
    requires |t| == TableBytes && 0 <= i < 256
    ensures |Listing(t, name)| == |Header(name)| + LineLength * 256 + 3
    ensures Listing(t, name)[|Header(name)| + LineLength * i .. |Header(name)| + LineLength * (i + 1)] == Line(t, i)
  {
    var h := |Header(name)|;
    LinesSlice(t, 256, i);
    assert Listing(t, name)[h .. h + LineLength * 256] == Lines(t, 256);
  }

  /** Where byte j of tile i is printed: its two hex digits. */
  function DigitsAt(name: string, i: int, j: int): int
  {
    |Header(name)| + LineLength * i + 5 + 6 * j
  }

  /**
   * The table can be read back from the listing: the two digits after the
   * j-th "0x" of line i are byte j of tile i, and the comment of line i holds i.
   */
  lemma ListingReadsBack(t: seq<bv8>, name: string, i: int, j: int)
    requires |t| == TableBytes && 0 <= i < 256 && 0 <= j < 16
    ensures |Listing(t, name)| == |Header(name)| + LineLength * 256 + 3
    ensures Listing(t, name)[DigitsAt(name, i, j) - 2 .. DigitsAt(name, i, j)] == "0x"
    ensures Hex.Byte2Value(Listing(t, name)[DigitsAt(name, i, j) .. DigitsAt(name, i, j) + 2]) == Some(t[16 * i + j] as int)
    ensures Hex.Byte2Value(Listing(t, name)[|Header(name)| + LineLength * i + 105 .. |Header(name)| + LineLength * i + 107]) == Some(i)
  {
    var start := |Header(name)| + LineLength * i;
    var listing := Listing(t, name);
    var line := Line(t, i);
    ListingLine(t, name, i);
    assert start + LineLength == |Header(name)| + LineLength * (i + 1);
    assert listing[start .. start + LineLength] == line;
    LineReadsBack(t, i, j);
    SliceWithin(listing, start, line, 3 + 6 * j, 5 + 6 * j);
    SliceWithin(listing, start, line, 5 + 6 * j, 7 + 6 * j);
    SliceWithin(listing, start, line, 105, 107);
    assert DigitsAt(name, i, j) == start + 5 + 6 * j;
  }

  /** The global `tiles` table and the two passes over it. */
  class TileTable {
    const tiles: array<bv8>

    constructor ()
      ensures tiles.Length == TableBytes && fresh(tiles)
    {
      tiles := new bv8[TableBytes];
    }

    /** read_tiles: clear the table, then feed the input through the state machine. */
    method ReadTiles(input: seq<byte>) returns (res: ReadResult)
      requires tiles.Length == TableBytes
      requires forall i :: 0 <= i < |input| ==> input[i] != 0xFF   // 0xFF read into a `char` compares equal to EOF
      requires Supported(input)
      modifies tiles
      ensures Run(Init(), input).Done? ==> res == Compiled && tiles[..] == Run(Init(), input).final.tiles
      ensures Run(Init(), input).Fatal? ==> res == ParseError(Run(Init(), input).line)
    {
      var reading := new byte[MaxNames];
      var nReading, col, row, line := 0, 0, 0, 1;
      var state := Normal;
      for k := 0 to TableBytes
        invariant forall m :: 0 <= m < k ==> tiles[m] == 0
      {
        tiles[k] := 0;
      }
      assert tiles[..] == Init().tiles;
      var i := 0;
      while i < |input|
        invariant 0 <= i <= |input| && 0 <= nReading <= MaxNames && state != NameNum
        invariant Run(Parser(state, reading[..nReading], col, row, line, tiles[..]), input[i..]) == Run(Init(), input)
      {
        var c := input[i];
        if c == NL {
          line := line + 1;
        }
        ghost var q := Parser(state, reading[..nReading], col, row, line, tiles[..]);
        assert input[i..][0] == c && input[i..][1..] == input[i + 1..];
        if state == Error {
          return ParseError(line);
        }
        assert InBounds(q, c);
        state, nReading, col, row := Feed(reading, state, nReading, col, row, line, c);
        assert Parser(state, reading[..nReading], col, row, line, tiles[..]) == Step(q, c);
        i := i + 1;
      }
      return Compiled;
    }

    /** The state dispatch of read_tiles for one character `c` read in a state other than S_ERROR. */
    method Feed(reading: array<byte>, state0: State, nReading0: int, col0: int, row0: int, line: int, c: byte)
      returns (state: State, nReading: int, col: int, row: int)
      requires tiles.Length == TableBytes && reading.Length == MaxNames && 0 <= nReading0 <= MaxNames
      requires state0 != Error && state0 != NameNum
      requires InBounds(Parser(state0, reading[..nReading0], col0, row0, line, tiles[..]), c)
      modifies tiles, reading
      ensures 0 <= nReading <= MaxNames
      ensures Parser(state, reading[..nReading], col, row, line, tiles[..])
           == Step(Parser(state0, old(reading[..nReading0]), col0, row0, line, old(tiles[..])), c)
    {
      state, nReading, col, row := state0, nReading0, col0, row0;
      if state == Normal {
        if c == '>' as int {
          nReading := 0;
          state := Names;
        } else if c == '#' as int {
          state := Comment;
        } else if c == ' ' as int || c == NL {
        } else {
          state := Error;
        }
      } else if state == Comment {
        if c == NL {
          state := Normal;
        }
      } else if state == Names {
        if c == ' ' as int {
        } else if c == '\'' as int {
          state := NameChar;
        } else if IsDigit(c) {
          state := NameNum;
        } else if c == NL {
          state := TileHeadline;
        } else {
          state := Error;
        }
      } else if state == NameChar {
        reading[nReading] := c;
        nReading := nReading + 1;
        state := NameAfterChar;
        assert reading[..nReading] == old(reading[..nReading0]) + [c];
      } else if state == NameAfterChar {
        if c == '\'' as int {
          state := Names;
        } else {
          state := Error;
        }
      } else if state == TileHeadline {
        row := -1;
        if c == NL {
          state := Tiles;
        }
      } else if state == Tiles {
        row := row + 1;
        if '0' as int <= c <= '7' as int {
          col := 0;
          state := TileIgnore;
        } else {
          state := Error;
        }
      } else if state == TileIgnore {
        if c == NL {
          if row == 7 { state := Normal; } else { state := Tiles; }
        } else {
          state := TilePix;
        }
      } else if state == TilePix {
        PlotPixel(reading[..nReading], col, row, line, c);
        col := col + 1;
        state := TileIgnore;
      }
    }

    /** The S_TILE_PIX branch: OR the pixel's bit into the plane bytes its glyph selects. */
    method PlotPixel(names: seq<byte>, col: int, row: int, line: int, c: byte)
      requires tiles.Length == TableBytes
      requires InBounds(Parser(TilePix, names, col, row, line, tiles[..]), c)
      modifies tiles
      ensures tiles[..] == Plot(Parser(TilePix, names, col, row, line, old(tiles[..])), c)
    {
      if c == ' ' as int || c == '0' as int {
      } else if Plane0Glyph(c) {
        OrInto(16 * (names[col / 8] as int) + row * 2, Mask(col));
      } else if Plane1Glyph(c) {
        OrInto(16 * (names[col / 8] as int) + row * 2 + 1, Mask(col));
      } else if BothGlyph(c) {
        OrInto(16 * (names[col / 8] as int) + row * 2, Mask(col));
        OrInto(16 * (names[col / 8] as int) + row * 2 + 1, Mask(col));
      }
      // a newline or an unknown glyph plots nothing: the state it would set is overwritten
    }

    /** `tiles[k] |= m` */
    method OrInto(k: int, m: bv8)
      requires 0 <= k < tiles.Length
      modifies tiles
      ensures tiles[..] == Or(old(tiles[..]), k, m)
    {
      tiles[k] := tiles[k] | m;
    }

    /** write_tiles: print the table as a C array definition named `name`. */
    method WriteTiles(name: string) returns (out: string)
      requires tiles.Length == TableBytes
      ensures out == Listing(tiles[..], name)
    {
      out := "const unsigned char " + name + "[256][16] = {\n";
      for i := 0 to 256
        invariant out == Header(name) + Lines(tiles[..], i)
      {
        var line := WriteLine(i);
        out := out + line;
      }
      out := out + "};\n";
    }

    /** One iteration of write_tiles' outer loop: the line of tile i. */
    method WriteLine(i: int) returns (line: string)
      requires tiles.Length == TableBytes && 0 <= i < 256
      ensures line == Line(tiles[..], i)
    {
      var cells := "";
      for j := 0 to 16
        invariant cells == Cells(tiles[..], i, j)
      {
        cells := cells + "0x" + Hex.Byte2(tiles[16 * i + j] as int);
        if j != 15 {
          cells := cells + ", ";
        } else {
          cells := cells + "}";
          if i == 255 { cells := cells + " "; } else { cells := cells + ","; }
        }
      }
      line := "  {" + cells + " /* 0x" + Hex.Byte2(i) + " */\n";
    }
  }
}
