# gbttt in Dafny

A model of the three programs of gbttt, a tic-tac-toe cartridge for the
original Game Boy and its two build tools, with proofs about them:

- **The cartridge** (`cart.c`): the software arithmetic (`log2`, `_div`,
  `div`, `mul`), the background-map console (`set_tile`, `clear`, `gbputc`,
  `gbputcxy`, `gbputs`), the board queries (`check_win`, `full`), the cell
  marks (`setx`, `seto`, `clearxy`), the tile copy of `init`, and the round
  set-up, frame step and restart of `main`. Modules `Arith`, `Console`
  (pure state functions), `Board` and `Cart` (a class whose fields are the
  globals, with methods proved against the `Console` and `Board` functions).
- **The tile compiler** (`convtiles.c`): the `read_tiles` state machine,
  which ORs plane bits into a 256 x 16 table, and the `write_tiles`
  serialiser. Module `TileCompiler`: the machine as a step function
  `Step`/`Run`, and a class `TileTable` whose methods run the same machine
  over an array and are proved equal to `Run`; the listing is proved to
  decode back to the table.
- **The ROM converter** (`ihx_to_bin.c`): the hex-digit readers, the record
  reader, the header checksum and the main loop. Module `Ihx`: pure
  decoders with round-trip lemmas against an encoder, and a class
  `Converter` whose methods write the 64 KiB buffer and are proved against
  the decoders.

Modules `Common` (byte, Option, Max) and `Hex` (hex digits as printed by
`%02x` and as read back) are shared.

Conventions: the 32x32 background map and the tile table are flat,
row-major arrays (`32*y + x`, `16*tile + byte`). The target's `int` is 16
bits: `mul` is modelled with explicit wrap-around (`Wrap16`), and `_div` is
proved to stay inside 16 bits for its non-negative inputs. Dafny's `/` and
`%` are Euclidean. On a negative value, `/ 2` is the floor, which is what
SDCC's arithmetic `>>` gives, and `% 2^n` is the two's-complement wrap. Input streams are character or byte
sequences with a read position; a fatal `exit(1)` is a failure value.

## Model

| member | source | states |
|---|---|---|
| Arith.Log2 | cart.c:112-121 | for s >= 1 the result i satisfies 2^i <= s < 2^(i+1); log2(0) is 0; and the result is the one the loop as written (Log2Loop) reaches |
| Arith.Log2Loop | cart.c:112-121 | the loop stops at once on 0 with i unchanged, and each iteration adds at most one to i |
| Arith.Log2LoopBounds | cart.c:112-121 | for s >= 1 the loop as written stops, and its i satisfies 2^i <= s < 2^(i+1) |
| Arith.Shr1 | cart.c:116 | `s >> 1` rounds toward minus infinity: it shrinks a positive value and keeps a negative one negative |
| Arith.Log2LoopDivergesOnNegative | cart.c:112-121 | the log2 loop on a negative argument never reaches 0, whatever the number of iterations allowed |
| Arith.Log2LoopTerminatesOnNonNegative | cart.c:115-118 | on a non-negative argument the log2 loop stops within s iterations |
| Arith.DivMod | cart.c:123-140 | for 0 <= a and 1 <= b (16-bit), q*b + r == a and 0 <= r < b, i.e. q and r are the quotient and remainder |
| Arith.ShiftSubtract | cart.c:128-135 | once the dividend is below b * 2^(la-lb+1), the loop from bit la-lb down to bit 0 leaves the quotient in q and the remainder in a |
| Arith.Div | cart.c:148-151 | div returns the quotient a / b |
| Arith.Mul | cart.c:153-163 | for a >= 0 the result is a*b reduced to the 16-bit int range (a*b itself when it fits) |
| Arith.Wrap16 | cart.c:153-163 | the 16-bit truncation lies in [-32768, 32767] and is congruent to its argument modulo 2^16 |
| Board.ScanFindsFirstWon | cart.c:289-316 | the scan returns a positive value exactly when a later line is won, and then the value of the first won line |
| Board.CheckWinCorrect | cart.c:285-317 | check_win is positive iff some row, column or diagonal holds three equal non-zero cells, it is the value of the first such line in the order rows, columns, diagonals, and on a board of 0/1/2 it is 0 exactly when neither player owns a line |
| Board.FullFrom | cart.c:325-329 | the loop flag ends 1 iff it started 1 and no remaining cell is 0 |
| Board.Full | cart.c:322-331 | full returns 1 iff no cell of the board is 0, otherwise 0 |
| Board.OutcomeCorrect | cart.c:530-548 | a round goes on iff no line is won and some cell is empty; a draw is a full board with no won line; player 1's win is reported when the first won line is player 1's, player 2's when it is player 2's |
| Board.CursorStep | cart.c:469-482 | directions 8/4/2/1 move y+1, y-1, x-1, x+1 with wrap-around at 152 and 180, any other nibble (several buttons) leaves the cursor alone, and the cursor stays on screen |
| Board.PixelToCell | cart.c:510-514 | a pixel in [origin + 28k, origin + 28(k+1)) maps to cell k, and the result is a board cell iff the pixel is within the 84 pixels of the board |
| Console.WithTile | cart.c:169-171 | a map write keeps the map at 32 x 32 cells |
| Console.WithTileAt | cart.c:169-171 | the tile is stored at cell 32*y + x and no other cell changes |
| Console.Scroll | cart.c:204-209 | without scrolling, or without a line advance, nothing changes; otherwise the horizontal scroll becomes 0, the scroll row steps modulo 32, the cursor row is blanked (BlankRow), and the cursor and the flag stay as they were |
| Console.BlankRow | cart.c:207-208 | the 32 cells of the row become blanks and no other cell changes |
| Console.PutC | cart.c:193-210 | a printable character is drawn under the cursor (row 32 folded to 0 first); the column advances and wraps at 20 to the next row; a newline moves to column 0 of the next row and draws nothing; a printable character that leaves the cursor on row 18 sets scrolling, which is never cleared; a line advance while scrolling steps the scroll row modulo 32 and blanks the new cursor row; no other cell changes |
| Console.PutCAt | cart.c:213-223 | the character is emitted at the given position and the cursor is restored |
| Console.PutCAtInPlace | cart.c:193-202 | a character away from the line end and row 18 only writes its cell |
| Console.PutRun | cart.c:226-228 | printable characters short of the line end are written left to right and the column advances by their number |
| Console.PutToLineEnd | cart.c:199-200 | characters reaching column 20 wrap to column 0 of the next row and stay on their row |
| Console.PutToLineEndCursor | cart.c:199-201 | a run reaching column 20 leaves the cursor at column 0 of the next row, and scrolling is set exactly when a character was printed on row 18 or the wrap reaches row 18 |
| Console.PutToLineEndCells | cart.c:198-200 | such a run is on its own row, character by character, and the cells left of it keep their tiles |
| Console.TwentyCharactersWrap | cart.c:199-200 | twenty printable characters from column 0 fill the row and move to the next row without a newline |
| Console.PutS | cart.c:226-228 | printing a string keeps the 32 x 32 map and never switches scrolling off |
| Console.PutSAppend | cart.c:226-228 | printing a + b is printing a then b |
| Console.LineThenNewline | cart.c:195 | a short line and a newline write the line on the cursor row and move to column 0 of the next row |
| Cart.DrawLinesAt | cart.c:390-400 | every character of every printed outline line is on the map at its column and row |
| Cart.DrawLinesElsewhere | cart.c:390-400 | printing the lines leaves every row outside the printed ones alone |
| Cart.Banner | cart.c:530-548 | a round in progress leaves the map alone; otherwise '@' is at (0, 0) and the result digit ('1', '2' or '0') at (1, 0) |
| Cart.OutlineFacts | cart.c:390-400 | the eleven outline lines are short printable lines with blanks at the mark cells (6+4x, 4+4y) of setx, seto and clearxy |
| Cart.OutlineErasesMarks | cart.c:390-400 | drawing the outline blanks all nine mark cells (6+4x, 4+4y) |
| Cart.PrintLineStep | cart.c:390-400 | printing outline line n and a newline extends the drawn outline by that line |
| Cart.Cart.constructor | cart.c:280-281 | the globals start at zero: the board is empty, the console cursor and scroll position are 0 |
| Cart.Cart.SetTile | cart.c:169-171 | the map cell receives the tile number truncated to a byte, nothing else changes |
| Cart.Cart.SetScroll | cart.c:175-180 | the scroll position is recorded |
| Cart.Cart.Clear | cart.c:183-188 | every map cell is a blank |
| Cart.Cart.Gbputc | cart.c:193-210 | the console state after the call is PutC of the state before |
| Cart.Cart.ScrollLine | cart.c:204-209 | the scroll row steps modulo 32 and the cursor row is blanked |
| Cart.Cart.Gbputcxy | cart.c:213-223 | the console state after the call is PutCAt of the state before |
| Cart.Cart.Gbputs | cart.c:226-228 | the console state after the call is PutS of the state before |
| Cart.Cart.PutMark | cart.c:335-345 | the glyph lands on cell (6+4x, 4+4y) and nothing else on the console changes |
| Cart.Cart.SetX | cart.c:335-337 | an X is drawn on the board cell, nothing else changes |
| Cart.Cart.SetO | cart.c:339-341 | an O is drawn on the board cell, nothing else changes |
| Cart.Cart.ClearXY | cart.c:343-345 | the board cell's mark is blanked, nothing else changes |
| Cart.Cart.LoadTiles | cart.c:254-256 | tile memory becomes a copy of the tile table |
| Cart.Cart.ResetBoard | cart.c:363-367 | every board cell becomes 0 |
| Cart.Cart.PutLine | cart.c:390 | one outline gbputs writes its line on the cursor row and moves to the next row |
| Cart.Cart.PutOutlineLine | cart.c:390-400 | outline line n is drawn on row 3 + n over the first n lines, and the cursor moves to column 0 of the next row without scrolling |
| Cart.Cart.PutOutlineBlock | cart.c:390-397 | four consecutive outline lines are drawn in order, each on its own row |
| Cart.Cart.PutOutlineTail | cart.c:398-400 | the last three outline lines are drawn in order, each on its own row |
| Cart.Cart.PrintOutline | cart.c:390-400 | the map holds the eleven outline lines on rows 3-13 and the cursor is at column 0 of row 14 |
| Cart.Cart.BeginRound | cart.c:355-427 | player 1, an empty board, the outline drawn, cursor sprite 'Q' at (80, 70), console cursor at (0, 14) without scrolling, and a round in progress |
| Cart.Cart.MoveCursor | cart.c:469-488 | the cursor moves by CursorStep and the sprite follows it |
| Cart.Cart.ShowPlayer | cart.c:439-440 | the sprite shows tile player + 'P' and the player digit is on the map at (10, 0); nothing else on the console changes |
| Cart.Cart.Select | cart.c:494-525 | A alone sets (xp, yp) to the cell under the cursor; a move on an empty cell stores the player there, draws its glyph and passes the turn; otherwise board, player and screen are unchanged |
| Cart.Cart.Place | cart.c:521-522 | the player is stored in the cell, its X or O is drawn on the cell, the turn passes to the other player, and no other cell changes |
| Cart.Cart.ShowResult | cart.c:530-548 | a win by player 1, else by player 2, else a full board writes "@1", "@2" or "@0" at the top left and ends the round; otherwise nothing changes |
| Cart.Cart.PutBanner | cart.c:531-532 | '@' lands at (0, 0) and the digit at (1, 0), and the console cursor is where it was |
| Cart.Cart.Frame | cart.c:430-548 | one frame: the sprite shows the player, the player digit is drawn at (10, 0), the cursor steps, an accepted move marks the board and passes the turn, the banner appears with the outcome, and the board stays valid with the cursor on screen |
| Cart.Cart.Turn | cart.c:439-525 | the frame up to the result test: the player shown, the cursor stepped, and an accepted move stored and drawn with the turn passed |
| Cart.Cart.Restart | cart.c:558-569 | the player digit and the banner are erased and a new round begins |
| Cart.Cart.Boot | cart.c:347-356 | a blank screen at scroll (0, 0) with the outline drawn and the first round begun |
| Hex.DigitChar | convtiles.c:113 | `%x` prints 0-9 and lower-case a-f |
| Hex.DigitValue | ihx_to_bin.c:11-19 | exactly 0-9, a-f and A-F have a value, and it is below 16 |
| Hex.DigitRoundTrip | ihx_to_bin.c:13-14 | a printed digit reads back as itself |
| Hex.UpperCaseDigit | ihx_to_bin.c:15 | upper-case letter digits have the same value as lower-case ones |
| Hex.Byte2 | convtiles.c:113 | `%02x` prints exactly two characters |
| Hex.Byte2Value | ihx_to_bin.c:21-26 | two hex digits give a value below 256 |
| Hex.Byte2RoundTrip | convtiles.c:113 | a byte printed with `%02x` reads back as the byte |
| TileCompiler.Init | convtiles.c:11-22 | the machine starts on line 1 with the whole table zero |
| TileCompiler.CountLine | convtiles.c:25 | the line count goes up by one exactly on a newline, and nothing else changes |
| TileCompiler.Step | convtiles.c:27-97 | the table keeps 4096 bytes, only the pixel state writes to it, and the line count is left to CountLine |
| TileCompiler.Plot | convtiles.c:80-95 | a character that sets no plane leaves the table alone; a glyph changes only the two plane bytes of the pixel's row |
| TileCompiler.Run | convtiles.c:24-102 | a run that reaches the end of input leaves a 4096-byte table |
| TileCompiler.StepOnlySetsBits | convtiles.c:81-89 | one character never clears a bit of the table |
| TileCompiler.OrCovers | convtiles.c:84-89 | or-ing a mask into one byte of the table clears no bit |
| TileCompiler.RunOnlySetsBits | convtiles.c:24-102 | reading a whole input never clears a bit: the table only accumulates pixels |
| TileCompiler.PixelStep | convtiles.c:80-97 | in the pixel state every character moves one column on and back to the separator state; '-'/'1' set the pixel's bit in byte row*2 of tile reading[col/8], '+'/'2' in byte row*2+1, 'X'/'*'/'3' in both; no other byte changes |
| TileCompiler.GrammarErrors | convtiles.c:27-76 | in the normal state exactly '>', '#', blank and newline are accepted; a quoted name must be closed by a quote; the line after a name list is skipped and sets the row to -1; a row line must start with '0'-'7' and advances the row by one; a newline after row 7 ends the block |
| TileCompiler.QuotedName | convtiles.c:42-61 | `'c'` in a name list appends c to the names being read, whatever c is, a quote or a newline included; a quoted newline also counts a line |
| TileCompiler.RunAppend | convtiles.c:24 | reading s + t is reading s and then t |
| TileCompiler.FatalIffErrorBeforeEnd | convtiles.c:98-101 | "Parsing error" is reported iff a character is read after the machine entered the error state, so an error on the last character goes unreported |
| TileCompiler.ErrorBeforeEndShift | convtiles.c:98-101 | when the first character is accepted, the input has an error before its end exactly when the rest has one from the state it leads to |
| TileCompiler.ErrorReportedOnNextChar | convtiles.c:98-101 | the error is reported with the line count of the character read after it |
| TileCompiler.CellParts | convtiles.c:113 | each printed byte is "0x" and two digits that read back as the byte |
| TileCompiler.LineReadsBack | convtiles.c:111-121 | in the line of tile i, the digits after the j-th "0x" are byte j of tile i, and the comment holds i |
| TileCompiler.Line | convtiles.c:111-121 | the line of tile i has 111 characters: "  {", the 16 printed bytes, and the comment with i in two hex digits and a newline |
| TileCompiler.Listing | convtiles.c:105-125 | the listing is the header, 256 x 111 characters of lines, and "};\n" |
| TileCompiler.ListingLine | convtiles.c:105-125 | the listing is the header, 256 lines of 111 characters in tile order, and "};\n" |
| TileCompiler.ListingReadsBack | convtiles.c:105-125 | the table can be read back from the listing: every byte of every tile and every tile index |
| TileCompiler.TileTable.constructor | convtiles.c:5 | the table has 4096 bytes |
| TileCompiler.TileTable.ReadTiles | convtiles.c:7-103 | the table ends as Run's final table from a zero table, and a parse error is reported with Run's line |
| TileCompiler.TileTable.Feed | convtiles.c:27-97 | one character in a state other than the error state changes the locals and the table as Step does |
| TileCompiler.TileTable.PlotPixel | convtiles.c:80-95 | the pixel-state write to the table is Plot |
| TileCompiler.TileTable.OrInto | convtiles.c:84 | `tiles[k] |= m` sets the bits of m in byte k and changes nothing else |
| TileCompiler.TileTable.WriteTiles | convtiles.c:105-125 | the output is the listing of the table |
| TileCompiler.TileTable.WriteLine | convtiles.c:110-122 | one pass of the outer loop prints the line of tile i |
| Ihx.ReadHexDigit | ihx_to_bin.c:11-19 | a hex digit is read as its value below 16; any other character or EOF is the fatal "not a hex digit" |
| Ihx.ShiftOrDigits | ihx_to_bin.c:25 | `(hi << 4) | lo` on two digits is 16*hi + lo |
| Ihx.ShiftOrBytes | ihx_to_bin.c:32 | `(hi << 8) | lo` on two bytes is 256*hi + lo |
| Ihx.ReadHexByte | ihx_to_bin.c:21-26 | the value is 16*hi + lo < 256, high digit first, and the first bad digit is the error |
| Ihx.ReadHexByteIsByte2Value | ihx_to_bin.c:21-26 | read_hex_byte accepts exactly the digit pairs that Hex.Byte2Value accepts, with the same value |
| Ihx.ReadHexWord | ihx_to_bin.c:28-33 | the value is 256*hi + lo < 65536, big-endian, and the first bad byte is the error |
| Ihx.ReadBytes | ihx_to_bin.c:47-50 | n data bytes take 2n characters |
| Ihx.ByteRoundTrip | ihx_to_bin.c:21-26 | two lower-case hex digits of v read back as v, two characters on |
| Ihx.WordRoundTrip | ihx_to_bin.c:28-33 | the digits of the high byte, then the low byte, read back as the 16-bit word, four characters on |
| Ihx.BytesRoundTrip | ihx_to_bin.c:46-50 | 2n digits of n bytes read back as those bytes, 2n characters on |
| Ihx.EncodeBytesAt | ihx_to_bin.c:46-50 | the encoding of a data block holds the two digits of byte k at 2k |
| Ihx.RecordLayout | ihx_to_bin.c:35-55 | an encoded record is ':', count, address, type, 2n data digits, checksum and a newline, 12 + 2n characters in all |
| Ihx.RecordHead | ihx_to_bin.c:36-40 | a record must start with ':' (else "Expected ':'"), then a count below 256 and an address below 65536 |
| Ihx.RecordBody | ihx_to_bin.c:44-55 | type, data, checksum and a newline are read; type and checksum are ignored; the data are the `size` bytes after the type |
| Ihx.ReadRecord | ihx_to_bin.c:35-58 | a zero-count record stops after the address; any other record ends after its newline, 12 + 2*size characters on |
| Ihx.Splice | ihx_to_bin.c:47-50 | the data replace the bytes from the address on and every other byte is kept |
| Ihx.Load | ihx_to_bin.c:75 | a loaded buffer keeps its 64 KiB |
| Ihx.LoadDecided | ihx_to_bin.c:75 | the loop ends in a buffer only at a zero-count record, fails only at a record that fails to read, and overflows only at a record that does not fit |
| Ihx.UnwrittenKept | ihx_to_bin.c:75 | a byte that no record stores keeps its value |
| Ihx.ComplementCancels | ihx_to_bin.c:63 | the bytes of the range, plus one per byte, plus the value of the loop (Complement), are 0 modulo 256 |
| Ihx.HeaderChecksumCancels | ihx_to_bin.c:63-64 | the header bytes 0x134..0x14C, plus 25, plus the checksum (HeaderChecksum) at 0x14D, are 0 modulo 256 |
| Ihx.Image | ihx_to_bin.c:77 | the image written is 0x8000 bytes |
| Ihx.UnwrittenBytesZero | ihx_to_bin.c:74-77 | in the image, every byte no record stores, other than the checksum, is 0 |
| Ihx.RecordRoundTrip | ihx_to_bin.c:35-58 | an encoded record with data reads back as its address and data whatever its type and checksum, and reading resumes after its newline |
| Ihx.EndRecordStops | ihx_to_bin.c:42 | a zero-count record stops after the address, whatever follows |
| Ihx.Converter.constructor | ihx_to_bin.c:8-9 | the buffer has 64 KiB and the positions are 0 |
| Ihx.Converter.ReadIhxLine | ihx_to_bin.c:35-58 | fails exactly as ReadRecord does; otherwise returns the count, stores the data at the address, leaves buf_pos after them, raises max_buf_pos to the end of the data (unchanged for a zero-count record) |
| Ihx.Converter.ReadRest | ihx_to_bin.c:44-57 | the part after the address: the data are stored and the newline checked, as RecordBody decodes |
| Ihx.Converter.ReadData | ihx_to_bin.c:46-50 | the copy loop stores ReadBytes' data from buf_pos on and raises max_buf_pos |
| Ihx.Converter.MkGbChecksums | ihx_to_bin.c:60-69 | byte 0x14D becomes the header checksum and no other byte changes |
| Ihx.Converter.Convert | ihx_to_bin.c:71-80 | the output is the image of the records loaded into a zero buffer up to the end record, with the checksum, or the first fatal error |

## Left out

- Hardware timing: the `wait_for_*` polls, the Start-button busy-wait, palette, LCD-control, window and scroll-register writes are not modelled. A map write happens at once, and Restart is the step taken after Start is pressed.
- `mod` (cart.c:142-146) is not modelled. It returns an uninitialised variable and nothing calls it.
- Arith.DivMod, Arith.Log2: negative operands are excluded by the precondition. On them the loops do not terminate; this is shown for `log2` by Arith.Log2LoopDivergesOnNegative (see Findings).
- Arith.Mul: the multiplier must be non-negative. With a negative multiplier the loop does not terminate, like `log2`.
- Cart.Cart.Select: computes the cell with Board.PixelToCell, which yields -1 left of or above the board. The source calls `_div` there, and that call does not return (see Findings).
- Out-of-range writes are preconditions, not modelled behaviour:
  - gbputc past map row 31 after repeated newlines (Console.CanPutC);
  - a pixel under column 8*n_reading or beyond in convtiles (TileCompiler.InBounds, OutOfRange);
  - a quoted name beyond the 256 slots of `reading`;
  - a record with address + count above 0x10000 (Ihx.Fits).
- TileCompiler.Run: numeric tile names (`ungetc` and `fscanf("%i")`, convtiles.c:44-55) are not modelled. Such a run ends as NumericName, and ReadTiles requires an input that avoids it.
- TileCompiler.TileTable.ReadTiles: the input must not contain byte 0xFF. Read into a `char`, that byte equals EOF and ends the loop early.
- File opening, closing and argument handling of both tools' `main` are not modelled. The listing and the image are returned as values instead of being written.
- Ihx.Converter.ReadIhxLine: after a fatal error the buffer contents are unspecified, because the program exits.
- The LCDCONT bit helpers (cart.c:57-84) are not modelled. They are single hardware-register bit writes.
- The sprite-clearing loop of `init` (cart.c:250-251) is not modelled. Only sprite 0 is modelled.
- Turning the sprite layer off at the end of a round (cart.c:555) is an LCD-control write and is not modelled.
- The sum `y` of mk_gb_checksums (ihx_to_bin.c:66) is computed and discarded, as in the code. The global checksum it was meant for is commented out, so it is not stored.
- The header checksum is computed as x - b - 1 for each byte (ihx_to_bin.c:63), which is -(sum + 25) modulo 256.
- In the pixel state every character is accepted, because convtiles.c:97 overrides the error state set at convtiles.c:94.

## Findings

| source | as written | input that shows it | evidently intended | confidence | as-written member | corrected member |
|---|---|---|---|---|---|---|
| cart.c:510-511 with cart.c:112-121 | `xp = _div(x-45, 28, 0)` is called for every press of A, and `_div` calls `log2(x-45)`; on a negative int `s >> 1` stays negative, so `while (s)` never ends | the cursor at x = 44 (or y = 36) and A pressed: the game hangs | a press of A outside the board selects no cell (xp = -1, the preset value and the outcome of the disabled bounds checks at cart.c:499-504) | not executed | Arith.Log2LoopDivergesOnNegative | Board.PixelToCell |
