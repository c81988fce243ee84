/** Types shared by the three programs: the cartridge, the tile compiler and the ROM converter. */
module Common {
  /** An unsigned 8-bit value (`unsigned char` on both the target and the host). */
  type byte = x: int | 0 <= x < 256

  datatype Option<T> = None | Some(value: T)

  /** The newline character, which both the console and the tile compiler act on. */
  const NL: byte := 10

  function Max(a: int, b: int): (m: int)
    ensures m >= a && m >= b && (m == a || m == b)
  {
    if a < b then b else a
  }

  /** A slice of a slice is a slice. */
  lemma SliceOfSlice<T>(s: seq<T>, a: int, b: int, c: int, d: int)
    requires 0 <= a <= b <= |s| && 0 <= c <= d <= b - a
    ensures s[a..b][c..d] == s[a + c .. a + d]
  {
    forall k | 0 <= k < d - c
      ensures s[a..b][c..d][k] == s[a + c .. a + d][k]
    {
      assert s[a..b][c..d][k] == s[a..b][c + k] == s[a + c + k];
    }
  }

  /** A slice of a part of s that equals `part` is the same slice of `part`. */
  lemma SliceWithin<T>(s: seq<T>, start: int, part: seq<T>, a: int, b: int)
    requires 0 <= start && start + |part| <= |s| && s[start .. start + |part|] == part
    requires 0 <= a <= b <= |part|
    ensures s[start + a .. start + b] == part[a..b]
  {
    SliceOfSlice(s, start, start + |part|, a, b);
  }

  /** A slice inside the left operand of a concatenation. */
  lemma SliceOfAppendLeft<T>(a: seq<T>, b: seq<T>, x: int, y: int)
    requires 0 <= x <= y <= |a|
    ensures (a + b)[x..y] == a[x..y]
  {
  }

  /** The right operand of a concatenation, as a slice of it. */
  lemma SliceOfAppendRight<T>(a: seq<T>, b: seq<T>)
    ensures (a + b)[|a| .. |a| + |b|] == b
  {
  }
}
