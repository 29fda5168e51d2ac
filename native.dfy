/** Machine-level arithmetic of the wasm32 target the glue code is compiled for:
    `size_t` and `uint32_t` are 32 bits wide and wrap modulo 2^32, `uint16_t` is
    16 bits wide, `int` is a 32-bit two's complement integer, and a C++ cast from
    `double` to an integer type truncates toward zero (and is undefined when the
    truncated value does not fit the target type). */
module Native {

  const U16_LIMIT: int := 0x1_0000
  const U32_LIMIT: int := 0x1_0000_0000
  const I32_LIMIT: int := 0x8000_0000

  type u16 = x: int | 0 <= x < U16_LIMIT
  type u32 = x: int | 0 <= x < U32_LIMIT
  type i32 = x: int | -I32_LIMIT <= x < I32_LIMIT
  type byte = x: int | 0 <= x < 0x100

  /** A byte buffer whose length fits a wasm32 `size_t`. */
  type Bytes = b: seq<byte> | |b| < U32_LIMIT

  /** Reduction of a mathematical integer to the `uint32_t`/`size_t` it is stored in. */
  function Wrap32(x: int): (r: u32)
    ensures 0 <= x < U32_LIMIT ==> r == x
    ensures (x - r) % U32_LIMIT == 0
  {
    x % U32_LIMIT
  }

  /** `a + b` evaluated in `size_t`. */
  function Add32(a: u32, b: u32): u32 {
    Wrap32(a + b)
  }

  /** `a * b` evaluated in `size_t`. */
  function Mul32(a: u32, b: u32): u32 {
    Wrap32(a * b)
  }

  /** The conversion of a `uint32_t` to the 32-bit `int` a function returns. */
  function AsInt32(x: u32): (r: i32)
    ensures Wrap32(r) == x
    ensures r >= 0 <==> x < I32_LIMIT
  {
    if x < I32_LIMIT then x else x - U32_LIMIT
  }

  lemma ModOfShift(x: int, k: int)
    ensures (x + k * U32_LIMIT) % U32_LIMIT == x % U32_LIMIT
  {
    var q, r := x / U32_LIMIT, x % U32_LIMIT;
    assert x + k * U32_LIMIT == (q + k) * U32_LIMIT + r;
  }

  /** Reducing an operand of `+` before adding gives the same `size_t`. */
  lemma WrapAdd(a: int, b: int)
    ensures Wrap32(a + Wrap32(b)) == Wrap32(a + b)
  {
    ModOfShift(a + Wrap32(b), b / U32_LIMIT);
  }

  /** Reducing an operand of `*` before multiplying gives the same `size_t`. */
  lemma WrapMul(a: int, b: int)
    ensures Wrap32(a * Wrap32(b)) == Wrap32(a * b)
  {
    var q := b / U32_LIMIT;
    assert a * b == a * Wrap32(b) + (a * q) * U32_LIMIT;
    ModOfShift(a * Wrap32(b), a * q);
  }

  /** A product of three `size_t` operands, evaluated left to right with wrap-around,
      is the exact product reduced modulo 2^32. */
  lemma Mul32Chain(a: u32, b: u32, c: u32)
    ensures Mul32(Mul32(a, b), c) == Wrap32(a * b * c)
  {
    WrapMul(c, a * b);
    assert Mul32(a, b) * c == c * Wrap32(a * b);
    assert a * b * c == c * (a * b);
  }

  /** C++ conversion of a `double` to an integer: truncation toward zero. */
  function Trunc(x: real): (r: int)
    ensures 0.0 <= x ==> 0 <= r && r as real <= x < r as real + 1.0
    ensures x < 0.0 ==> r <= 0 && r as real - 1.0 < x <= r as real
  {
    if x >= 0.0 then x.Floor else -((-x).Floor)
  }

  /** `static_cast<uint32_t>(x)` is defined exactly when the truncated value fits. */
  predicate FitsU32(x: real) {
    -1.0 < x < 4294967296.0
  }

  predicate FitsU16(x: real) {
    -1.0 < x < 65536.0
  }

  predicate FitsI32(x: real) {
    -2147483649.0 < x < 2147483648.0
  }

  function CastU32(x: real): (r: u32)
    requires FitsU32(x)
    ensures 0.0 <= x ==> r as real <= x < r as real + 1.0
    ensures x < 0.0 ==> r == 0
  {
    Trunc(x)
  }

  function CastU16(x: real): (r: u16)
    requires FitsU16(x)
    ensures 0.0 <= x ==> r as real <= x < r as real + 1.0
    ensures x < 0.0 ==> r == 0
  {
    Trunc(x)
  }

  function CastI32(x: real): (r: i32)
    requires FitsI32(x)
    ensures 0.0 <= x ==> r as real <= x < r as real + 1.0
    ensures x < 0.0 ==> r as real - 1.0 < x <= r as real
  {
    Trunc(x)
  }
}
