/**
 * The software arithmetic of the cartridge (the target CPU has no multiply or
 * divide instruction). `int` is 16 bits wide on the target compiler, so the
 * range [-0x8000, 0x7FFF] is modelled explicitly where a value could leave it.
 */
module Arith {
  import opened Common

  const IntMax := 0x7FFF

  function Pow2(n: nat): (p: nat)
    ensures p >= 1
  {
    if n == 0 then 1 else 2 * Pow2(n - 1)
  }

  lemma {:induction false} Pow2Add(m: nat, n: nat)
    ensures Pow2(m + n) == Pow2(m) * Pow2(n)
  {
    if n > 0 {
      Pow2Add(m, n - 1);
      assert Pow2(m + n) == 2 * Pow2(m + n - 1);
    }
  }

  lemma {:induction false} Pow2Monotone(m: nat, n: nat)
    requires m <= n
    ensures Pow2(m) <= Pow2(n)
  {
    if m < n {
      Pow2Monotone(m, n - 1);
    }
  }

  /** `s >> 1` on a signed int: the shift is arithmetic, i.e. division rounding toward minus infinity. */
  function Shr1(s: int): (r: int)
    ensures s >= 0 ==> 0 <= r && (s > 0 ==> r < s)
    ensures s < 0 ==> r < 0
    ensures 2 * r <= s <= 2 * r + 1
  {
    s / 2
  }

  /**
   * log2 (cart.c): shift right until zero, counting the shifts that leave a
   * non-zero value. For s >= 1 that is the position of the highest set bit.
   */
  method Log2(s0: int) returns (i: int)
    requires 0 <= s0
    ensures s0 == 0 ==> i == 0
    ensures s0 >= 1 ==> 0 <= i && Pow2(i) <= s0 < Pow2(i + 1)
    ensures Log2Loop(s0, 0, s0) == Some(i)
  {
    var s := s0;
    i := 0;
    while s != 0
      invariant 0 <= s <= s0 && 0 <= i
      invariant s0 == 0 ==> i == 0
      invariant s >= 1 ==> Pow2(i) * s <= s0 < Pow2(i) * (s + 1)
      invariant s == 0 && s0 >= 1 ==> Pow2(i) <= s0 < Pow2(i + 1)
      invariant Log2Loop(s, i, s) == Log2Loop(s0, 0, s0)
      decreases s
    {
      HalveBounds(s0, s, Pow2(i));
      ghost var (s1, i1) := (s, i);
      s := Shr1(s);
      if s != 0 {
        i := i + 1;
      }
      Log2LoopTerminatesOnNonNegative(s, i);
      Log2LoopFuel(s, i, s, s1 - 1);
    }
  }

  /** One step of the `log2` loop keeps the dividend between p*s and p*(s+1). */
  lemma HalveBounds(s0: int, s: int, p: int)
    requires s >= 1 && p >= 1 && p * s <= s0 < p * (s + 1)
    ensures s / 2 >= 1 ==> (2 * p) * (s / 2) <= s0 < (2 * p) * (s / 2 + 1)
    ensures s / 2 == 0 ==> p <= s0 < 2 * p
  {
    var h := s / 2;
    if s % 2 == 0 {
      assert s == 2 * h;
      assert p * s == (2 * p) * h;
      assert p * (s + 1) == (2 * p) * h + p;
    } else {
      assert s == 2 * h + 1;
      assert p * s == (2 * p) * h + p;
      assert p * (s + 1) == (2 * p) * (h + 1);
    }
  }

  /**
   * The `log2` loop run for at most `fuel` iterations on any int, `None` while
   * it is still running. With the arithmetic shift a negative argument never
   * reaches zero.
   */
  function Log2Loop(s: int, i: int, fuel: nat): (o: Option<int>)
    ensures s == 0 ==> o == Some(i)
    ensures o.Some? ==> i <= o.value <= i + fuel  // at most one increment per halving
    decreases fuel
  {
    if s == 0 then Some(i)
    else if fuel == 0 then None
    else
      var s' := Shr1(s);
      Log2Loop(s', if s' != 0 then i + 1 else i, fuel - 1)
  }

  /** For a negative argument the `log2` loop runs forever: no amount of fuel is enough. */
  lemma {:induction false} Log2LoopDivergesOnNegative(s: int, i: int, fuel: nat)
    requires s < 0
    ensures Log2Loop(s, i, fuel) == None
    decreases fuel
  {
    if fuel > 0 {
      Log2LoopDivergesOnNegative(Shr1(s), if Shr1(s) != 0 then i + 1 else i, fuel - 1);
    }
  }

  /** For a non-negative argument the same loop stops after at most s iterations. */
  lemma {:induction false} Log2LoopTerminatesOnNonNegative(s: int, i: int)
    requires s >= 0
    ensures Log2Loop(s, i, s).Some?
    decreases s
  {
    if s > 0 {
      var s' := Shr1(s);
      Log2LoopTerminatesOnNonNegative(s', if s' != 0 then i + 1 else i);
      Log2LoopFuel(s', if s' != 0 then i + 1 else i, s', s - 1);
    }
  }

  /**
   * The loop run to completion from s >= 1 ends with the position of the
   * highest set bit, the result the method Log2 is proved to return.
   */
  lemma Log2LoopBounds(s: int)
    requires s >= 1
    ensures Log2Loop(s, 0, s).Some?
    ensures var i := Log2Loop(s, 0, s).value; 0 <= i && Pow2(i) <= s < Pow2(i + 1)
  {
    Log2LoopRun(s, s, 0, s);
  }

  lemma {:induction false} Log2LoopRun(s0: int, s: int, i: nat, fuel: nat)
    requires s >= 1 && fuel >= s && Pow2(i) * s <= s0 < Pow2(i) * (s + 1)
    ensures Log2Loop(s, i, fuel).Some?
    ensures var r := Log2Loop(s, i, fuel).value; 0 <= r && Pow2(r) <= s0 < Pow2(r + 1)
    decreases s
  {
    HalveBounds(s0, s, Pow2(i));
    var s' := Shr1(s);
    if s' != 0 {
      assert Pow2(i + 1) == 2 * Pow2(i);
      Log2LoopRun(s0, s', i + 1, fuel - 1);
    }
  }

  lemma {:induction false} Log2LoopFuel(s: int, i: int, f: nat, g: nat)
    requires f <= g && Log2Loop(s, i, f).Some?
    ensures Log2Loop(s, i, g) == Log2Loop(s, i, f)
    decreases f
  {
    if s != 0 {
      var s' := Shr1(s);
      Log2LoopFuel(s', if s' != 0 then i + 1 else i, f - 1, g - 1);
    }
  }

  /**
   * _div (cart.c): shift-and-subtract division. The divisor is aligned with the
   * dividend by the difference of their logarithms, then one quotient bit is
   * produced per step. Both operands are non-negative 16-bit ints; the shifted
   * divisor `b << (16 - i)` then never leaves the 16-bit range.
   */
  method DivMod(a0: int, b: int) returns (q: int, r: int)
    requires 0 <= a0 <= IntMax && 1 <= b <= IntMax
    ensures q * b + r == a0 && 0 <= r < b
    ensures q == a0 / b && r == a0 % b
  {
    var la := Log2(a0);
    var lb := Log2(b);
    LogBound(a0, la);
    AlignedBound(a0, b, la, lb);
    q, r := ShiftSubtract(a0, b, la, lb);
  }

  /**
   * The loop of _div: with the logarithms la of the dividend and lb of the
   * divisor, one quotient bit per step from bit la - lb down to bit 0.
   */
  method ShiftSubtract(a0: int, b: int, la: int, lb: int) returns (q: int, r: int)
    requires 0 <= a0 <= IntMax && 1 <= b <= IntMax
    requires 0 <= la <= 14 && 0 <= lb && b < Pow2(lb + 1)
    requires la < lb ==> a0 < b
    requires la >= lb ==> a0 < b * Pow2(la - lb + 1)
    ensures q * b + r == a0 && 0 <= r < b
    ensures q == a0 / b && r == a0 % b
  {
    var ldiff := la - lb;
    var a := a0;
    q := 0;
    var i := 16 - ldiff;
    while i <= 16
      invariant ldiff < 0 ==> i == 16 - ldiff && a == a0 && q == 0
      invariant ldiff >= 0 ==> 16 - ldiff <= i <= 17 && 0 <= a < b * Pow2(17 - i)
      invariant q * b + a == a0
    {
      var k := 16 - i;
      ShiftedDivisorFits(b, lb, la, k);
      var x := b * Pow2(k);       // b << (16 - i)
      var qx := Pow2(k);          // 1 << (16 - i)
      DivStep(a0, a, b, q, qx);
      if a >= x {
        q := q + qx;
        a := a - x;
      }
      i := i + 1;
    }
    r := a;
    DivUnique(a0, b, q, r);
  }

  /** A log2 of a 16-bit non-negative int is at most 14. */
  lemma LogBound(a: int, la: int)
    requires 0 <= a <= IntMax && 0 <= la
    requires a == 0 ==> la == 0
    requires a >= 1 ==> Pow2(la) <= a < Pow2(la + 1)
    ensures la <= 14
  {
    Pow2AtLeast15(la);
  }

  lemma {:induction false} Pow2AtLeast15(n: nat)
    ensures n >= 15 ==> Pow2(n) >= 0x8000
  {
    if n > 15 {
      Pow2AtLeast15(n - 1);
    } else if n == 15 {
      Pow2Of15();
    }
  }

  /** The dividend is below the divisor shifted one past the alignment (or below the divisor). */
  lemma AlignedBound(a: int, b: int, la: nat, lb: nat)
    requires 0 <= a && 1 <= b
    requires a == 0 ==> la == 0
    requires a >= 1 ==> Pow2(la) <= a < Pow2(la + 1)
    requires Pow2(lb) <= b
    ensures la < lb ==> a < b
    ensures la >= lb ==> a < b * Pow2(la - lb + 1)
  {
    if la < lb {
      Pow2Monotone(la + 1, lb);
    } else {
      Pow2Add(lb, la - lb + 1);
      MulMonotone(b, Pow2(lb), Pow2(la - lb + 1));
    }
  }

  lemma ShiftedDivisorFits(b: int, lb: nat, la: nat, k: nat)
    requires 1 <= b < Pow2(lb + 1) && k + lb <= la <= 14
    ensures b * Pow2(k) <= IntMax && Pow2(k) <= IntMax
  {
    var p, c := Pow2(k), Pow2(lb + 1);
    Pow2Add(lb + 1, k);
    Pow2Monotone(lb + 1 + k, 15);
    Pow2Of15();
    assert c * p <= 0x8000;
    MulMonotone(c, b + 1, p);
    assert (b + 1) * p == b * p + p;
    assert b * p + p <= 0x8000;
    MulMonotone(b, 1, p);
    assert p <= b * p;
  }

  lemma Pow2Of15()
    ensures Pow2(15) == 0x8000
  {
    assert Pow2(4) == 16;
    assert Pow2(8) == 256;
    assert Pow2(12) == 4096;
  }

  /** One step of `_div`: subtracting the shifted divisor when it fits keeps q*b + a fixed. */
  lemma DivStep(a0: int, a: int, b: int, q: int, p: int)
    requires 0 <= a && q * b + a == a0 && p >= 1
    ensures a >= b * p ==> (q + p) * b + (a - b * p) == a0
    ensures a < b * (2 * p) ==> a - b * p < b * p
  {
    assert (q + p) * b == q * b + b * p;
    assert b * (2 * p) == b * p + b * p;
  }

  lemma MulMonotone(x: int, y: int, c: int)
    ensures x >= y && c >= 0 ==> x * c >= y * c
  {
    if x >= y && c >= 0 {
      assert x * c - y * c == (x - y) * c;
    }
  }

  lemma DivUnique(a: int, b: int, q: int, r: int)
    requires 0 <= a && 1 <= b && q * b + r == a && 0 <= r < b
    ensures q == a / b && r == a % b
  {
    var q', r' := a / b, a % b;
    assert q' * b + r' == a;
    MulMonotone(q, q' + 1, b);
    MulMonotone(q', q + 1, b);
    assert (q' + 1) * b == q' * b + b;
    assert (q + 1) * b == q * b + b;
  }

  /** div (cart.c): the quotient of _div, the remainder discarded. */
  method Div(a: int, b: int) returns (q: int)
    requires 0 <= a <= IntMax && 1 <= b <= IntMax
    ensures q == a / b
  {
    var r;
    q, r := DivMod(a, b);
  }

  /** Two's-complement truncation of an integer to the target's 16-bit int. */
  function Wrap16(v: int): (w: int)
    ensures -0x8000 <= w <= IntMax
    ensures (w - v) % 0x10000 == 0
  {
    (v + 0x8000) % 0x10000 - 0x8000
  }

  /**
   * mul (cart.c): shift-and-add multiplication on 16-bit ints. The sum and
   * the doubled multiplicand wrap, so the result is the product modulo 2^16.
   */
  method Mul(a0: int, b0: int) returns (p: int)
    requires 0 <= a0 <= IntMax && -0x8000 <= b0 <= IntMax
    ensures p == Wrap16(a0 * b0)
  {
    var a, b := a0, b0;
    p := 0;
    while a != 0
      invariant 0 <= a && -0x8000 <= p <= IntMax
      invariant (p + a * b - a0 * b0) % 0x10000 == 0
      decreases a
    {
      ghost var (a1, b1, p1) := (a, b, p);
      if a % 2 == 1 {                 // a & 1
        p := Wrap16(p + b);
      }
      a := Shr1(a);
      b := Wrap16(2 * b);             // b << 1
      CongruentStep(a1, b1, p1, a, b, p, a0 * b0);
    }
    assert (p - a0 * b0) % 0x10000 == 0;
    WrapOfCongruent(p, a0 * b0);
  }

  /** One round of mul keeps p + a * b congruent to the product v modulo 2^16. */
  lemma CongruentStep(a: int, b: int, p: int, a': int, b': int, p': int, v: int)
    requires a >= 0 && a' == a / 2
    requires (b' - 2 * b) % 0x10000 == 0
    requires (p' - (p + (a % 2) * b)) % 0x10000 == 0
    requires (p + a * b - v) % 0x10000 == 0
    ensures (p' + a' * b' - v) % 0x10000 == 0
  {
    var k := (b' - 2 * b) / 0x10000;
    var m := (p' - (p + (a % 2) * b)) / 0x10000;
    var j := (p + a * b - v) / 0x10000;
    assert b' == 2 * b + 0x10000 * k;
    assert p' == p + (a % 2) * b + 0x10000 * m;
    assert p + a * b - v == 0x10000 * j;
    assert a == 2 * a' + a % 2;
    assert a' * b' == 2 * a' * b + 0x10000 * (a' * k);
    assert p' + a' * b' - v == 0x10000 * (j + m + a' * k);
  }

  lemma WrapOfCongruent(p: int, v: int)
    requires -0x8000 <= p <= IntMax && (p - v) % 0x10000 == 0
    ensures p == Wrap16(v)
  {
    var w := Wrap16(v);
    assert (w - v) % 0x10000 == 0;
    var k1 := (p - v) / 0x10000;
    var k2 := (w - v) / 0x10000;
    assert p - w == 0x10000 * (k1 - k2);
  }
}
