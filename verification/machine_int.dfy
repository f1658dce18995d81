/** Fixed-width integers as the C++ code uses them: the newtypes make the verifier check that no operation
    leaves the type, and division and remainder truncate toward zero. Also the row and column of an offset. */
module MachineInt {

  newtype uint8 = x: int | 0 <= x < 0x100
  newtype int32 = x: int | -0x8000_0000 <= x < 0x8000_0000
  newtype int64 = x: int | -0x8000_0000_0000_0000 <= x < 0x8000_0000_0000_0000

  /** Division as C++ does it, for a positive divisor. */
  function TruncDiv(a: int, b: int): (q: int)
    requires b > 0
    ensures 0 <= a ==> 0 <= q <= a
    ensures a <= 0 ==> a <= q <= 0
  {
    DivSmaller(if a >= 0 then a else -a, b);
    if a >= 0 then a / b else -(-a / b)
  }

  function Quot(a: int32, b: int32): (q: int32)
    requires b > 0
    ensures q as int == TruncDiv(a as int, b as int)
  {
    TruncDiv(a as int, b as int) as int32
  }

  /** Remainder as C++ does it: it has the sign of the dividend. */
  function TruncRem(a: int, b: int): (r: int)
    requires b > 0
    ensures r == a - TruncDiv(a, b) * b
    ensures 0 <= a ==> 0 <= r < b && r <= a
    ensures a <= 0 ==> -b < r <= 0
  {
    var m := if a >= 0 then a else -a;
    FloorDiv(m, b);
    DivBounds(m, b);
    if a >= 0 then a % b else -(-a % b)
  }

  function Rem(a: int32, b: int32): (r: int32)
    requires b > 0
    ensures r as int == TruncRem(a as int, b as int)
  {
    TruncRem(a as int, b as int) as int32
  }

  lemma DivSmaller(a: int, b: int)
    requires 0 <= a && 0 < b
    ensures 0 <= a / b <= a
  {
    DivBounds(a, b);
    MulMono(1, b, a / b);
  }

  lemma MulMono(a: int, b: int, c: int)
    requires a <= b && 0 <= c
    ensures a * c <= b * c
  {}

  lemma DivBounds(a: int, b: int)
    requires 0 <= a && 0 < b
    ensures 0 <= a / b && a / b * b <= a < (a / b + 1) * b
  {}

  lemma DivBelow(a: int, b: int, q: int)
    requires 0 <= a < q * b && 0 < b
    ensures a / b < q
  {
    DivBounds(a, b);
    if a / b >= q {
      MulMono(q, a / b, b);
    }
  }

  lemma QuotientIs(a: int, b: int, q: int)
    requires 0 < b && q * b <= a < (q + 1) * b && 0 <= a
    ensures a / b == q
  {
    DivBounds(a, b);
    DivBelow(a, b, q + 1);
    if a / b < q {
      MulMono(a / b + 1, q, b);
    }
  }

  lemma DigitOut(q: int, r: int, base: int)
    requires 0 <= q && 0 <= r < base
    ensures (q * base + r) / base == q && (q * base + r) % base == r
  {
    MulMono(0, q, base);
    QuotientIs(q * base + r, base, q);
    FloorDiv(q * base + r, base);
  }

  lemma FloorDiv(a: int, b: int)
    requires 0 < b
    ensures a == a / b * b + a % b && 0 <= a % b < b
  {}

  // ---- rows and columns ------------------------------------------------------------------------

  ghost function Row(k: int, stride: int): (y: int)
    requires stride > 0
    ensures 0 <= k ==> 0 <= y
  {
    k / stride
  }

  ghost function Column(k: int, stride: int): (x: int)
    requires stride > 0
    ensures 0 <= x < stride
  {
    k % stride
  }

  lemma PositionOf(y: int, x: int, stride: int)
    requires 0 <= x < stride && 0 <= y
    ensures Row(y * stride + x, stride) == y && Column(y * stride + x, stride) == x
    ensures forall k | k != y * stride + x :: Row(k, stride) != y || Column(k, stride) != x
  {
    var k := y * stride + x;
    MulMono(0, y, stride);
    QuotientIs(k, stride, y);
    FloorDiv(k, stride);
    forall j | j != k ensures Row(j, stride) != y || Column(j, stride) != x {
      FloorDiv(j, stride);
    }
  }
}
