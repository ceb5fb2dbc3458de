/**
 * Fixed-width unsigned integers of the C sources. Dafny integers are
 * unbounded, so every wrap-around is written out here.
 */
module Machine {
  const U8: int := 0x100
  const U32: int := 0x1_0000_0000

  newtype u8 = x: int | 0 <= x < 0x100
  newtype u32 = x: int | 0 <= x < 0x1_0000_0000

  /** `a + b` on uint32_t. */
  function Add32(a: u32, b: int): (r: u32)
    requires 0 <= b
    ensures r as int == (a as int + b) % U32
  {
    ((a as int + b) % U32) as u32
  }

  /** `a - b` on uint32_t: the distance from `b` forward to `a` around the 2^32 circle. */
  function Sub32(a: u32, b: u32): (r: nat)
    ensures r < U32
    ensures (b as int + r) % U32 == a as int
  {
    (a as int - b as int) % U32
  }

  /** `a + 1` on uint8_t. */
  function Inc8(a: u8): (r: u8)
    ensures a as int < 0xFF ==> r as int == a as int + 1
    ensures a as int == 0xFF ==> r == 0
  {
    ((a as int + 1) % U8) as u8
  }

  /** `a - 1` on uint8_t. */
  function Dec8(a: u8): (r: u8)
    ensures a as int > 0 ==> r as int == a as int - 1
    ensures a == 0 ==> r as int == 0xFF
  {
    ((a as int - 1) % U8) as u8
  }

  /** Walking `j` steps forward from `b` and `k` more steps is walking `j + k` steps. */
  lemma Add32Assoc(a: u32, j: nat, k: nat)
    ensures Add32(Add32(a, j), k) == Add32(a, j + k)
  {
  }

  /** A point `c` no further from `a` than `b` splits the distance from `a` to `b`. */
  lemma Sub32Split(a: u32, b: u32, c: u32)
    requires Sub32(c, a) <= Sub32(b, a)
    ensures Sub32(b, c) == Sub32(b, a) - Sub32(c, a)
  {
  }

  /** Walking the distance from `a` to `b` forward from `a` reaches `b`. */
  lemma Add32Sub32(a: u32, b: u32)
    ensures Add32(a, Sub32(b, a)) == b
  {
  }

  /** The distance from `a` to `a + k` is `k` when `k` is below 2^32. */
  lemma Sub32Add32(a: u32, k: nat)
    requires k < U32
    ensures Sub32(Add32(a, k), a) == k
  {
  }

  /** A distance that does not wrap is a plain difference. */
  lemma Sub32NoWrap(a: u32, b: u32, k: nat)
    requires Sub32(a, b) == k && b as int + k < U32
    ensures a as int == b as int + k
  {
  }

  lemma MulAtLeast(n: int, d: int)
    requires n > 0 && d >= 1
    ensures n * d >= n
  {
    assert n * d == n * (d - 1) + n;
  }

  /** Division with remainder has one answer: any `q`, `r` with `x == n * q + r` and `0 <= r < n` are `x / n` and `x % n`. */
  lemma DivModUnique(x: int, n: int, q: int, r: int)
    requires n > 0 && 0 <= r < n && x == n * q + r
    ensures x / n == q && x % n == r
  {
    var q0, r0 := x / n, x % n;
    assert x == n * q0 + r0;
    assert n * (q - q0) == r0 - r;
    if q > q0 {
      MulAtLeast(n, q - q0);
    } else if q < q0 {
      MulAtLeast(n, q0 - q);
    }
  }

  /** The two's-complement reading of a 32-bit pattern, as C's `%d` conversion prints an unsigned argument. */
  function AsInt32(n: u32): (r: int)
    ensures n as int < 0x8000_0000 ==> r == n as int
    ensures n as int >= 0x8000_0000 ==> r == n as int - U32 && r < 0
  {
    if n < 0x8000_0000 then n as int else n as int - U32
  }
}
