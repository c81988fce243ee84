/**
 * The ROM converter (ihx_to_bin.c): it reads Intel HEX records
 * `:LLAAAATT<data>CC` from standard input into a 64 KiB buffer, stores the
 * Game Boy header checksum at 0x14D and writes the first 32 KiB.
 *
 * Standard input is the character sequence `input` and a read position
 * `pos`; `fgetc` at or past the end yields EOF, which is no hex digit, no
 * ':' and no newline. Every fatal `exit(1)` is a `Failure` value.
 */
module Ihx {
  import opened Common
  import Hex

  const BufSize := 0x10000
  const WriteSize := 0x8000
  /** The header bytes the checksum covers: 0x134 up to, not including, 0x14D. */
  const HeaderFirst := 0x134
  const ChecksumAt := 0x14D

  /** Why the converter exits: a character that is not a hex digit (None for EOF), no ':' or no newline. */
  datatype Failure = NotHexDigit(found: Option<char>) | ExpectedColon | ExpectedNewline

  /** The result of reading from position `pos`: a value and the position after it, or a fatal error. */
  datatype Read<T> = Got(value: T, next: int) | Failed(failure: Failure)

  /** fgetc: the character at pos, or None at EOF. */
  function At(input: seq<char>, pos: int): Option<char>
    requires 0 <= pos
  {
    if pos < |input| then Some(input[pos]) else None
  }

  /** read_hex_digit */
  function ReadHexDigit(input: seq<char>, pos: int): (r: Read<int>)
    requires 0 <= pos
    ensures r.Got? <==> pos < |input| && Hex.DigitValue(input[pos]).Some?
    ensures r.Got? ==> 0 <= r.value < 16 && r.next == pos + 1 && Hex.DigitValue(input[pos]) == Some(r.value)
    ensures r.Failed? ==> r.failure == NotHexDigit(At(input, pos))
  {
    match At(input, pos)
    case None => Failed(NotHexDigit(None))
    case Some(c) =>
      match Hex.DigitValue(c)
      case Some(d) => Got(d, pos + 1)
      case None => Failed(NotHexDigit(Some(c)))
  }

  /** `(hi << 4) | lo` on two digits is 16 * hi + lo: the shifted digit and the low digit share no bit. */
  lemma ShiftOrDigits(hi: bv8, lo: bv8)
    requires hi < 16 && lo < 16
    ensures (hi << 4) | lo == hi * 16 + lo
  {
  }

  /** `(hi << 8) | lo` on two bytes is 256 * hi + lo. */
  lemma ShiftOrBytes(hi: bv16, lo: bv16)
    requires hi < 256 && lo < 256
    ensures (hi << 8) | lo == hi * 256 + lo
  {
  }

  /** read_hex_byte: two digits, high first; the first bad digit is the error. */
  function ReadHexByte(input: seq<char>, pos: int): (r: Read<int>)
    requires 0 <= pos
    ensures r.Got? ==> 0 <= r.value < 256 && r.next == pos + 2
    ensures r.Got? <==> ReadHexDigit(input, pos).Got? && ReadHexDigit(input, pos + 1).Got?
    ensures r.Got? ==> r.value == 16 * ReadHexDigit(input, pos).value + ReadHexDigit(input, pos + 1).value
    ensures r.Failed? ==> r.failure == if ReadHexDigit(input, pos).Failed? then ReadHexDigit(input, pos).failure
                                       else ReadHexDigit(input, pos + 1).failure
  {
    match ReadHexDigit(input, pos)
    case Failed(f) => Failed(f)
    case Got(hi, p1) =>
      match ReadHexDigit(input, p1)
      case Failed(f) => Failed(f)
      case Got(lo, p2) => Got(16 * hi + lo, p2)
  }

  /** read_hex_word: two bytes, big-endian. */
  function ReadHexWord(input: seq<char>, pos: int): (r: Read<int>)
    requires 0 <= pos
    ensures r.Got? ==> 0 <= r.value < 0x10000 && r.next == pos + 4
    ensures r.Got? <==> ReadHexByte(input, pos).Got? && ReadHexByte(input, pos + 2).Got?
    ensures r.Got? ==> r.value == 256 * ReadHexByte(input, pos).value + ReadHexByte(input, pos + 2).value
    ensures r.Failed? ==> r.failure == if ReadHexByte(input, pos).Failed? then ReadHexByte(input, pos).failure
                                       else ReadHexByte(input, pos + 2).failure
  {
    match ReadHexByte(input, pos)
    case Failed(f) => Failed(f)
    case Got(hi, p1) =>
      match ReadHexByte(input, p1)
      case Failed(f) => Failed(f)
      case Got(lo, p2) => Got(256 * hi + lo, p2)
  }

  /** read_hex_byte decodes exactly the pairs of digits that `%02x` reads back, to the same value. */
  lemma ReadHexByteIsByte2Value(input: seq<char>, pos: int)
    requires 0 <= pos && pos + 2 <= |input|
    ensures ReadHexByte(input, pos).Got? <==> Hex.Byte2Value(input[pos..pos + 2]).Some?
    ensures ReadHexByte(input, pos).Got? ==> ReadHexByte(input, pos).value == Hex.Byte2Value(input[pos..pos + 2]).value
  {
    var s := input[pos..pos + 2];
    assert s[0] == input[pos] && s[1] == input[pos + 1];
  }

  /** n data bytes in a row. */
  function ReadBytes(input: seq<char>, pos: int, n: nat): (r: Read<seq<byte>>)
    requires 0 <= pos
    ensures r.Got? ==> |r.value| == n && r.next == pos + 2 * n
  {
    if n == 0 then Got([], pos)
    else
      match ReadBytes(input, pos, n - 1)
      case Failed(f) => Failed(f)
      case Got(data, p) =>
        match ReadHexByte(input, p)
        case Failed(f) => Failed(f)
        case Got(b, p') => Got(data + [b], p')
  }

  /** The start of a record: ':' then the byte count and the load address; they end 7 characters on. */
  function RecordHead(input: seq<char>, pos: int): (r: Read<(int, int)>)
    requires 0 <= pos
    ensures r.Got? ==> 0 <= r.value.0 < 256 && 0 <= r.value.1 < 0x10000 && r.next == pos + 7
    ensures r == Failed(ExpectedColon) <==> At(input, pos) != Some(':')
  {
    if At(input, pos) != Some(':') then Failed(ExpectedColon)
    else
      match ReadHexByte(input, pos + 1)
      case Failed(f) => Failed(f)
      case Got(size, p1) =>
        match ReadHexWord(input, p1)
        case Failed(f) => Failed(f)
        case Got(addr, p2) => Got((size, addr), p2)
  }

  /** A decoded record: its byte count, load address and data. */
  datatype Record = Record(size: int, addr: int, data: seq<byte>)

  /**
   * The rest of a record with a non-zero count: the type, the data, the
   * checksum and '\n'. The type and the checksum are read and ignored.
   */
  function RecordBody(input: seq<char>, pos: int, size: nat): (r: Read<seq<byte>>)
    requires 0 <= pos
    ensures r.Got? ==> |r.value| == size && r.next == pos + 5 + 2 * size && r.next <= |input| && input[r.next - 1] == '\n'
    ensures r.Got? ==> ReadBytes(input, pos + 2, size) == Got(r.value, pos + 2 + 2 * size)
  {
    match ReadHexByte(input, pos)
    case Failed(f) => Failed(f)
    case Got(_, p1) =>
      match ReadBytes(input, p1, size)
      case Failed(f) => Failed(f)
      case Got(data, p2) =>
        match ReadHexByte(input, p2)
        case Failed(f) => Failed(f)
        case Got(_, p3) =>
          if At(input, p3) != Some('\n') then Failed(ExpectedNewline)
          else Got(data, p3 + 1)
  }

  /** read_ihx_line's decoding: a zero-count record stops after the address. */
  function ReadRecord(input: seq<char>, pos: int): (r: Read<Record>)
    requires 0 <= pos
    ensures r.Got? ==> 0 <= r.value.size < 256 && |r.value.data| == r.value.size && 0 <= r.value.addr < 0x10000
    ensures r.Got? ==> RecordHead(input, pos) == Got((r.value.size, r.value.addr), pos + 7)
    ensures r.Got? && r.value.size == 0 ==> r.next == pos + 7
    ensures r.Got? && r.value.size > 0 ==> r.next == pos + 12 + 2 * r.value.size
  {
    match RecordHead(input, pos)
    case Failed(f) => Failed(f)
    case Got((size, addr), p) =>
      if size == 0 then Got(Record(0, addr, []), p)
      else
        match RecordBody(input, p, size)
        case Failed(f) => Failed(f)
        case Got(data, next) => Got(Record(size, addr, data), next)
  }

  /** The record at pos, if its head reads, does not run past the end of the buffer. */
  predicate Fits(input: seq<char>, pos: int)
    requires 0 <= pos
  {
    RecordHead(input, pos).Got? ==> RecordHead(input, pos).value.1 + RecordHead(input, pos).value.0 <= BufSize
  }

  /** `mem` with `data` stored from `addr` on. */
  function Splice(mem: seq<byte>, addr: int, data: seq<byte>): (r: seq<byte>)
    requires 0 <= addr && addr + |data| <= |mem|
    ensures |r| == |mem|
    ensures forall j :: 0 <= j < |mem| ==> r[j] == if addr <= j < addr + |data| then data[j - addr] else mem[j]
  {
    mem[..addr] + data + mem[addr + |data|..]
  }

  lemma SpliceExtend(mem: seq<byte>, addr: int, data: seq<byte>, b: byte)
    requires 0 <= addr && addr + |data| < |mem|
    ensures Splice(mem, addr, data + [b]) == Splice(mem, addr, data)[addr + |data| := b]
  {
  }

  /** How the whole input ends: an image, a fatal error, or a record that would write past the buffer. */
  datatype Loaded = Loaded(mem: seq<byte>) | Fatal(failure: Failure) | Overflow

  /** `while (read_ihx_line(stdin));`: records are stored in order until a zero-count record. */
  function Load(input: seq<char>, pos: int, mem: seq<byte>): (r: Loaded)
    requires 0 <= pos && |mem| == BufSize
    ensures r.Loaded? ==> |r.mem| == BufSize
    decreases |input| - pos
  {
    if !Fits(input, pos) then Overflow
    else
      match ReadRecord(input, pos)
      case Failed(f) => Fatal(f)
      case Got(rec, next) =>
        if rec.size == 0 then Loaded(mem)
        else Load(input, next, Splice(mem, rec.addr, rec.data))
  }

  /**
   * Each outcome of the loop is decided by a record at or after pos: a
   * zero-count record ends it, a record that fails to read aborts it, a
   * record that does not fit in the buffer overflows it.
   */
  lemma {:induction false} LoadDecided(input: seq<char>, pos: int, mem: seq<byte>)
    requires 0 <= pos && |mem| == BufSize
    ensures Load(input, pos, mem).Loaded? ==>
      exists q :: pos <= q && ReadRecord(input, q).Got? && ReadRecord(input, q).value.size == 0
    ensures Load(input, pos, mem).Fatal? ==> exists q :: pos <= q && ReadRecord(input, q) == Failed(Load(input, pos, mem).failure)
    ensures Load(input, pos, mem).Overflow? ==> exists q :: pos <= q && !Fits(input, q)
    decreases |input| - pos
  {
    if Fits(input, pos) && ReadRecord(input, pos).Got? && ReadRecord(input, pos).value.size > 0 {
      var rec := ReadRecord(input, pos).value;
      LoadDecided(input, ReadRecord(input, pos).next, Splice(mem, rec.addr, rec.data));
    }
  }

  /** Some record read from pos on stores a byte at j. */
  predicate Written(input: seq<char>, pos: int, j: int)
    requires 0 <= pos
    decreases |input| - pos
  {
    match ReadRecord(input, pos)
    case Failed(_) => false
    case Got(rec, next) =>
      rec.size > 0 && ((rec.addr <= j < rec.addr + rec.size) || Written(input, next, j))
  }

  /** A byte no record stores keeps its value. */
  lemma {:induction false} UnwrittenKept(input: seq<char>, pos: int, mem: seq<byte>, j: int)
    requires 0 <= pos && |mem| == BufSize && 0 <= j < BufSize
    requires Load(input, pos, mem).Loaded? && !Written(input, pos, j)
    ensures Load(input, pos, mem).mem[j] == mem[j]
    decreases |input| - pos
  {
    var rec := ReadRecord(input, pos).value;
    if rec.size != 0 {
      var next := ReadRecord(input, pos).next;
      var mem' := Splice(mem, rec.addr, rec.data);
      UnwrittenKept(input, next, mem', j);
    }
  }

  /** The 8-bit running value of mk_gb_checksums: x = x - buf[i] - 1 for i in [lo, hi). */
  function Complement(mem: seq<byte>, lo: int, hi: int): (x: byte)
    requires 0 <= lo <= hi <= |mem|
    decreases hi - lo
  {
    if hi == lo then 0 else (Complement(mem, lo, hi - 1) - mem[hi - 1] - 1) % 256
  }

  /** The bytes, the stored value and one per byte add up to 0 modulo 256. */
  lemma {:induction false} ComplementCancels(mem: seq<byte>, lo: int, hi: int)
    requires 0 <= lo <= hi <= |mem|
    ensures (Sum(mem, lo, hi) + (hi - lo) + Complement(mem, lo, hi)) % 256 == 0
    decreases hi - lo
  {
    if hi != lo {
      ComplementCancels(mem, lo, hi - 1);
      CancelStep(Sum(mem, lo, hi - 1), hi - 1 - lo, Complement(mem, lo, hi - 1), mem[hi - 1]);
    }
  }

  /** Subtracting b + 1 from the running value keeps the total at 0 modulo 256 once b and 1 are added. */
  lemma CancelStep(s: int, n: int, x: int, b: int)
    requires (s + n + x) % 256 == 0
    ensures (s + b + n + 1 + (x - b - 1) % 256) % 256 == 0
  {
    var k := (x - b - 1) / 256;
    var j := (s + n + x) / 256;
    assert s + n + x == 256 * j;
    assert (x - b - 1) % 256 == x - b - 1 - 256 * k;
    assert s + b + n + 1 + (x - b - 1) % 256 == 256 * (j - k);
  }

  function Sum(mem: seq<byte>, lo: int, hi: int): int
    requires 0 <= lo <= hi <= |mem|
    decreases hi - lo
  {
    if hi == lo then 0 else Sum(mem, lo, hi - 1) + mem[hi - 1]
  }

  /** The header checksum the converter stores at 0x14D. */
  function HeaderChecksum(mem: seq<byte>): byte
    requires |mem| == BufSize
  {
    Complement(mem, HeaderFirst, ChecksumAt)
  }

  /** The checksum makes the 25 header bytes, plus 25, plus itself, 0 modulo 256. */
  lemma HeaderChecksumCancels(mem: seq<byte>)
    requires |mem| == BufSize
    ensures (Sum(mem, HeaderFirst, ChecksumAt) + 25 + HeaderChecksum(mem)) % 256 == 0
  {
    ComplementCancels(mem, HeaderFirst, ChecksumAt);
  }

  /** The image written: the loaded buffer with its checksum, cut to 32 KiB. */
  function Image(mem: seq<byte>): (image: seq<byte>)
    requires |mem| == BufSize
    ensures |image| == WriteSize
  {
    mem[ChecksumAt := HeaderChecksum(mem)][..WriteSize]
  }

  /** The all-zero buffer of `memset(buf, 0, BUF_SIZE)`. */
  const Zeros: seq<byte> := seq(BufSize, _ => 0)

  /** What the converter writes for a whole input, or why it stops. */
  datatype Outcome = Emitted(image: seq<byte>) | Exit(failure: Failure)

  /** In the image, a byte no record stores and that is not the checksum is 0. */
  lemma UnwrittenBytesZero(input: seq<char>, j: int)
    requires Load(input, 0, Zeros).Loaded?
    requires 0 <= j < WriteSize && j != ChecksumAt && !Written(input, 0, j)
    ensures Image(Load(input, 0, Zeros).mem)[j] == 0
  {
    UnwrittenKept(input, 0, Zeros, j);
  }

  /** The data bytes of a record, two lower-case digits each. */
  function EncodeBytes(data: seq<byte>): (s: string)
    ensures |s| == 2 * |data|
  {
    if data == [] then "" else EncodeBytes(data[..|data| - 1]) + Hex.Byte2(data[|data| - 1])
  }

  /** A whole record `:LLAAAATT<data>CC\n` with lower-case digits. */
  function EncodeRecord(addr: int, rtype: byte, data: seq<byte>, checksum: byte): string
    requires 0 <= addr < 0x10000 && |data| < 256
  {
    ":" + Hex.Byte2(|data|) + Hex.Byte2(addr / 256) + Hex.Byte2(addr % 256) + Hex.Byte2(rtype)
      + EncodeBytes(data) + Hex.Byte2(checksum) + "\n"
  }

  /** The two digits of v, as `%02x` prints them, stand at pos. */
  predicate PrintedAt(input: seq<char>, pos: int, v: int)
    requires 0 <= v < 256
  {
    0 <= pos && pos + 2 <= |input| && input[pos] == Hex.DigitChar(v / 16) && input[pos + 1] == Hex.DigitChar(v % 16)
  }

  /** The digits of the bytes of data stand from pos on, two per byte. */
  predicate EncodedAt(input: seq<char>, pos: int, data: seq<byte>)
  {
    0 <= pos && pos + 2 * |data| <= |input| && forall k :: 0 <= k < |data| ==> PrintedAt(input, pos + 2 * k, data[k])
  }

  /** Two printed digits read back as the byte, wherever they sit. */
  lemma ByteRoundTrip(input: seq<char>, pos: int, v: int)
    requires 0 <= v < 256 && PrintedAt(input, pos, v)
    ensures ReadHexByte(input, pos) == Got(v, pos + 2)
  {
    Hex.DigitRoundTrip(v / 16);
    Hex.DigitRoundTrip(v % 16);
  }

  /** Four printed digits read back as the word, high byte first. */
  lemma WordRoundTrip(input: seq<char>, pos: int, v: int)
    requires 0 <= v < 0x10000 && PrintedAt(input, pos, v / 256) && PrintedAt(input, pos + 2, v % 256)
    ensures ReadHexWord(input, pos) == Got(v, pos + 4)
  {
    ByteRoundTrip(input, pos, v / 256);
    ByteRoundTrip(input, pos + 2, v % 256);
  }

  /** Printed data bytes read back as the data. */
  lemma {:induction false} BytesRoundTrip(input: seq<char>, pos: int, data: seq<byte>)
    requires EncodedAt(input, pos, data)
    ensures ReadBytes(input, pos, |data|) == Got(data, pos + 2 * |data|)
    decreases |data|
  {
    if data != [] {
      var n := |data| - 1;
      var init := data[..n];
      assert EncodedAt(input, pos, init) by {
        forall k | 0 <= k < |init|
          ensures PrintedAt(input, pos + 2 * k, init[k])
        {
          assert init[k] == data[k];
        }
      }
      BytesRoundTrip(input, pos, init);
      assert PrintedAt(input, pos + 2 * n, data[n]);
      ByteRoundTrip(input, pos + 2 * n, data[n]);
      assert init + [data[n]] == data;
    }
  }

  /** EncodeBytes puts the digits of byte k at 2k. */
  lemma {:induction false} EncodeBytesAt(data: seq<byte>)
    ensures EncodedAt(EncodeBytes(data), 0, data)
    decreases |data|
  {
    if data != [] {
      var n := |data| - 1;
      var x, y := EncodeBytes(data[..n]), Hex.Byte2(data[n]);
      EncodeBytesAt(data[..n]);
      assert EncodeBytes(data) == x + y;
      forall k | 0 <= k < |data|
        ensures PrintedAt(x + y, 2 * k, data[k])
      {
        if k < n {
          assert PrintedAt(x, 2 * k, data[..n][k]);
          assert data[..n][k] == data[k];
        }
      }
    }
  }

  /** Encoded data copied into input from start on stay encoded there. */
  lemma EncodedShift(input: seq<char>, start: int, e: string, data: seq<byte>)
    requires EncodedAt(e, 0, data) && 0 <= start && start + |e| <= |input|
    requires forall j :: 0 <= j < |e| ==> input[start + j] == e[j]
    ensures EncodedAt(input, start, data)
  {
    forall k | 0 <= k < |data|
      ensures PrintedAt(input, start + 2 * k, data[k])
    {
      assert PrintedAt(e, 2 * k, data[k]);
      assert input[start + 2 * k] == e[2 * k] && input[start + 2 * k + 1] == e[2 * k + 1];
    }
  }

  /**
   * An encoded record with data reads back as its address and data, whatever
   * its type and checksum byte, and reading resumes after its newline.
   */
  lemma RecordRoundTrip(addr: int, rtype: byte, data: seq<byte>, checksum: byte, rest: string)
    requires 0 <= addr < 0x10000 && 0 < |data| < 256
    ensures ReadRecord(EncodeRecord(addr, rtype, data, checksum) + rest, 0)
         == Got(Record(|data|, addr, data), |EncodeRecord(addr, rtype, data, checksum)|)
  {
    var input := EncodeRecord(addr, rtype, data, checksum) + rest;
    var n := |data|;
    RecordLayout(addr, rtype, data, checksum, rest);
    ByteRoundTrip(input, 1, n);
    WordRoundTrip(input, 3, addr);
    assert RecordHead(input, 0) == Got((n, addr), 7);
    ByteRoundTrip(input, 7, rtype);
    BytesRoundTrip(input, 9, data);
    ByteRoundTrip(input, 9 + 2 * n, checksum);
    assert RecordBody(input, 7, n) == Got(data, 12 + 2 * n);
  }

  /** Where the fields of an encoded record stand. */
  lemma RecordLayout(addr: int, rtype: byte, data: seq<byte>, checksum: byte, rest: string)
    requires 0 <= addr < 0x10000 && 0 < |data| < 256
    ensures var input := EncodeRecord(addr, rtype, data, checksum) + rest;
      && |EncodeRecord(addr, rtype, data, checksum)| == 12 + 2 * |data|
      && input[0] == ':' && PrintedAt(input, 1, |data|)
      && PrintedAt(input, 3, addr / 256) && PrintedAt(input, 5, addr % 256) && PrintedAt(input, 7, rtype)
      && EncodedAt(input, 9, data) && PrintedAt(input, 9 + 2 * |data|, checksum) && input[11 + 2 * |data|] == '\n'
  {
    var input := EncodeRecord(addr, rtype, data, checksum) + rest;
    var e := EncodeBytes(data);
    var b1, b2, b3, b4, b5 := Hex.Byte2(|data|), Hex.Byte2(addr / 256), Hex.Byte2(addr % 256), Hex.Byte2(rtype), Hex.Byte2(checksum);
    RecordPositions(":", b1, b2, b3, b4, e, b5, "\n", rest);
    EncodeBytesAt(data);
    EncodedShift(input, 9, e, data);
  }

  /** The positions of the fields of a record `:LLAAAATT<data>CC\n` and what follows it. */
  lemma RecordPositions<T>(colon: seq<T>, b1: seq<T>, b2: seq<T>, b3: seq<T>, b4: seq<T>, e: seq<T>, b5: seq<T>, nl: seq<T>, rest: seq<T>)
    requires |colon| == 1 && |b1| == 2 && |b2| == 2 && |b3| == 2 && |b4| == 2 && |b5| == 2 && |nl| == 1
    ensures var s := colon + b1 + b2 + b3 + b4 + e + b5 + nl + rest;
      && |colon + b1 + b2 + b3 + b4 + e + b5 + nl| == 12 + |e|
      && s[0] == colon[0] && s[1] == b1[0] && s[2] == b1[1] && s[3] == b2[0] && s[4] == b2[1]
      && s[5] == b3[0] && s[6] == b3[1] && s[7] == b4[0] && s[8] == b4[1]
      && (forall j :: 0 <= j < |e| ==> s[9 + j] == e[j])
      && s[9 + |e|] == b5[0] && s[10 + |e|] == b5[1] && s[11 + |e|] == nl[0]
  {
  }

  /** An end record `:00AAAA` stops after the address, whatever follows it. */
  lemma EndRecordStops(addr: int, rest: string)
    requires 0 <= addr < 0x10000
    ensures ReadRecord(":" + Hex.Byte2(0) + Hex.Byte2(addr / 256) + Hex.Byte2(addr % 256) + rest, 0)
         == Got(Record(0, addr, []), 7)
  {
    var input := ":" + Hex.Byte2(0) + Hex.Byte2(addr / 256) + Hex.Byte2(addr % 256) + rest;
    assert PrintedAt(input, 1, 0);
    ByteRoundTrip(input, 1, 0);
    assert PrintedAt(input, 3, addr / 256) && PrintedAt(input, 5, addr % 256);
    WordRoundTrip(input, 3, addr);
  }

  /** The globals `buf`, `buf_pos` and `max_buf_pos`, and standard input. */
  class Converter {
    const buf: array<byte>
    var bufPos: int
    var maxBufPos: int
    const input: seq<char>
    var pos: int

    ghost predicate Valid()
      reads this
    {
      buf.Length == BufSize && 0 <= pos && 0 <= maxBufPos <= BufSize
    }

    constructor (stdin: seq<char>)
      ensures Valid() && input == stdin && pos == 0 && bufPos == 0 && maxBufPos == 0 && fresh(buf)
    {
      buf := new byte[BufSize];
      bufPos, maxBufPos := 0, 0;
      input, pos := stdin, 0;
    }

    /**
     * read_ihx_line: read one record, store its data at its address, and
     * return its byte count; the fatal errors are returned as failures.
     */
    method ReadIhxLine() returns (r: Read<int>)
      requires Valid() && Fits(input, pos)
      modifies this, buf
      ensures Valid()
      ensures r.Failed? <==> ReadRecord(input, old(pos)).Failed?
      ensures r.Failed? ==> r.failure == ReadRecord(input, old(pos)).failure
      ensures r.Got? ==> var rec := ReadRecord(input, old(pos)).value;
        && r.value == rec.size && r.next == pos == ReadRecord(input, old(pos)).next
        && bufPos == rec.addr + rec.size
        && buf[..] == Splice(old(buf[..]), rec.addr, rec.data)
        && maxBufPos == if rec.size == 0 then old(maxBufPos) else Max(old(maxBufPos), rec.addr + rec.size)
    {
      ghost var pos0 := pos;
      var colon := At(input, pos);
      if colon != Some(':') {
        return Failed(ExpectedColon);
      }
      var size := ReadHexByte(input, pos + 1);
      if size.Failed? {
        return Failed(size.failure);
      }
      var addr := ReadHexWord(input, size.next);
      if addr.Failed? {
        return Failed(addr.failure);
      }
      pos := addr.next;
      bufPos := addr.value;
      assert RecordHead(input, pos0) == Got((size.value, addr.value), pos);
      if size.value == 0 {
        return Got(0, pos);
      }
      var body := ReadRest(size.value);
      if body.Failed? {
        return Failed(body.failure);
      }
      return Got(size.value, pos);
    }

    /** read_ihx_line after a non-zero count and the address: the type, the data, the checksum and '\n'. */
    method ReadRest(size: int) returns (r: Read<int>)
      requires Valid() && 0 < size && 0 <= bufPos && bufPos + size <= BufSize
      modifies this, buf
      ensures Valid()
      ensures r.Failed? <==> RecordBody(input, old(pos), size).Failed?
      ensures r.Failed? ==> r.failure == RecordBody(input, old(pos), size).failure
      ensures r.Got? ==> pos == RecordBody(input, old(pos), size).next && bufPos == old(bufPos) + size
      ensures r.Got? ==> buf[..] == Splice(old(buf[..]), old(bufPos), RecordBody(input, old(pos), size).value)
      ensures r.Got? ==> maxBufPos == Max(old(maxBufPos), old(bufPos) + size)
    {
      var rtype := ReadHexByte(input, pos);
      if rtype.Failed? {
        return Failed(rtype.failure);
      }
      pos := rtype.next;
      var data := ReadData(size);
      if data.Failed? {
        return Failed(data.failure);
      }
      var checksum := ReadHexByte(input, pos);
      if checksum.Failed? {
        return Failed(checksum.failure);
      }
      pos := checksum.next;
      var newline := At(input, pos);
      if newline != Some('\n') {
        return Failed(ExpectedNewline);
      }
      pos := pos + 1;
      return Got(size, pos);
    }

    /** The copy loop of read_ihx_line: `buf[buf_pos++] = read_hex_byte(in)`, size times. */
    method ReadData(size: int) returns (r: Read<int>)
      requires Valid() && 0 < size && 0 <= bufPos && bufPos + size <= BufSize
      modifies this, buf
      ensures Valid()
      ensures r.Failed? <==> ReadBytes(input, old(pos), size).Failed?
      ensures r.Failed? ==> r.failure == ReadBytes(input, old(pos), size).failure
      ensures r.Got? ==> pos == ReadBytes(input, old(pos), size).next && bufPos == old(bufPos) + size
      ensures r.Got? ==> buf[..] == Splice(old(buf[..]), old(bufPos), ReadBytes(input, old(pos), size).value)
      ensures r.Got? ==> maxBufPos == Max(old(maxBufPos), old(bufPos) + size)
    {
      ghost var start := pos;
      ghost var mem0 := buf[..];
      var i := 0;
      while i < size
        invariant Valid() && 0 <= i <= size && bufPos == old(bufPos) + i
        invariant maxBufPos == if i == 0 then old(maxBufPos) else Max(old(maxBufPos), bufPos)
        invariant ReadBytes(input, start, i).Got? && ReadBytes(input, start, i).next == pos
        invariant buf[..] == Splice(mem0, old(bufPos), ReadBytes(input, start, i).value)
      {
        var b := ReadHexByte(input, pos);
        if b.Failed? {
          BytesFailFrom(input, start, i, size);
          return Failed(b.failure);
        }
        SpliceExtend(mem0, old(bufPos), ReadBytes(input, start, i).value, b.value);
        buf[bufPos] := b.value;
        bufPos := bufPos + 1;
        if bufPos > maxBufPos {
          maxBufPos := bufPos;
        }
        pos := b.next;
        i := i + 1;
      }
      return Got(size, pos);
    }

    /**
     * mk_gb_checksums: store the header checksum at 0x14D. The 16-bit sum
     * `y` over the image is computed and discarded, as in the source.
     */
    method MkGbChecksums()
      requires Valid()
      modifies buf
      ensures buf[..] == old(buf[..])[ChecksumAt := HeaderChecksum(old(buf[..]))]
    {
      var x: byte := 0;
      for i := HeaderFirst to ChecksumAt
        invariant x == Complement(buf[..], HeaderFirst, i)
      {
        x := (x - buf[i] - 1) % 256;
      }
      buf[ChecksumAt] := x;
      var y: int := 0;
      for i := 0 to WriteSize {
        if i != 0x14E && i != 0x14F {
          y := y + buf[i];
        }
      }
    }

    /** main: clear the buffer, read records up to the end record, add the checksum, emit 32 KiB. */
    method Convert() returns (out: Outcome)
      requires Valid() && Load(input, pos, Zeros) != Overflow
      modifies this, buf
      ensures Load(input, old(pos), Zeros).Loaded? ==> out == Emitted(Image(Load(input, old(pos), Zeros).mem))
      ensures Load(input, old(pos), Zeros).Fatal? ==> out == Exit(Load(input, old(pos), Zeros).failure)
    {
      for k := 0 to BufSize
        modifies buf
        invariant forall m :: 0 <= m < k ==> buf[m] == 0
      {
        buf[k] := 0;
      }
      assert buf[..] == Zeros;
      ghost var goal := Load(input, pos, Zeros);
      while true
        invariant Valid() && Load(input, pos, buf[..]) == goal
        decreases |input| - pos
      {
        ghost var p0 := pos;
        var r := ReadIhxLine();
        if r.Failed? {
          return Exit(r.failure);
        }
        if r.value == 0 {
          break;
        }
        assert pos > p0;
      }
      ghost var mem := buf[..];
      assert goal == Loaded(mem);
      MkGbChecksums();
      assert buf[..WriteSize] == buf[..][..WriteSize] == Image(mem);
      return Emitted(buf[..WriteSize]);
    }
  }

  /** A data byte that fails to read makes the whole run of data fail. */
  lemma {:induction false} BytesFailFrom(input: seq<char>, pos: int, i: nat, n: nat)
    requires 0 <= pos && i < n && ReadBytes(input, pos, i).Got?
    requires ReadHexByte(input, ReadBytes(input, pos, i).next).Failed?
    ensures ReadBytes(input, pos, n).Failed?
    ensures ReadBytes(input, pos, n).failure == ReadHexByte(input, ReadBytes(input, pos, i).next).failure
    decreases n
  {
    if n - 1 > i {
      BytesFailFrom(input, pos, i, n - 1);
    }
  }
}
