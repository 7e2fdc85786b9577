/** Machine integers of the firmware, a few facts about bits of a number,
    and a small Option type.

    The firmware is C on a 32-bit microcontroller: its state lives in
    `uint8_t` and `uint32_t` variables whose arithmetic wraps.  Dafny's
    integers are unbounded, so every place where the C code stores an
    arithmetic result back into a narrow variable goes through `Wrap8` or
    `Wrap32` below.
 */
module Base {

  const UINT8_MODULUS: nat := 0x100
  const UINT32_MODULUS: nat := 0x1_0000_0000

  /** The values of a C `uint8_t`. */
  type uint8 = x: int | 0 <= x < 0x100

  /** The values of a C `uint32_t`. */
  type uint32 = x: int | 0 <= x < 0x1_0000_0000

  /** Storing `x` into a `uint8_t`: reduction modulo 2^8. */
  function Wrap8(x: int): uint8
  {
    x % UINT8_MODULUS
  }

  /** Storing `x` into a `uint32_t`: reduction modulo 2^32. */
  function Wrap32(x: int): uint32
  {
    x % UINT32_MODULUS
  }

  /** `v & mask` is non-zero, for a mask with a single bit set. */
  predicate HasBit(v: uint8, mask: uint8)
  {
    mask > 0 && (v / mask) % 2 == 1
  }

  // ------------------------------------------------------------------
  // Bits of a natural number
  // ------------------------------------------------------------------

  /** Keeping one more low bit adds that bit's weight. */
  lemma LowBitsStep(value: nat, m: nat)
    requires m > 0
    ensures value % (2 * m) == value % m + m * ((value / m) % 2)
  {
    var q := value / m;
    var r := value % m;
    var a := q / 2;
    var b := q % 2;
    assert value == a * (2 * m) + (b * m + r);
    assert 0 <= b * m + r < 2 * m;
    DivModUnique(value, 2 * m, a, b * m + r);
  }

  lemma DivModUnique(x: nat, d: nat, q: nat, r: nat)
    requires d > 0 && x == q * d + r && r < d
    ensures x % d == r && x / d == q
  {
    var q' := x / d;
    var r' := x % d;
    assert q' * d + r' == q * d + r;
    assert (q' - q) * d == q' * d - q * d;
    if q' > q {
      PositiveMultiple(q' - q, d);
    } else if q' < q {
      PositiveMultiple(q - q', d);
    }
  }

  lemma PositiveMultiple(a: int, d: int)
    requires a >= 1 && d > 0
    ensures a * d >= d
  {
  }

  datatype Option<+T> = None | Some(value: T)
}
