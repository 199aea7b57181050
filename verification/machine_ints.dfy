/** The C++ integer conversions the backends apply to opaque handles.
    Handles are pointer-sized values; the runtime reinterprets them as
    integers and narrows them with `static_cast`. Dafny integers are
    unbounded, so every narrowing is written out here once. */
module MachineInts {

  const TWO_31: int := 0x8000_0000
  const TWO_32: int := 0x1_0000_0000

  /** An 8-bit element of a runtime array buffer. */
  type byte = b: int | 0 <= b < 0x100

  /** A C++ `unsigned` (32 bits). */
  type Word32 = w: int | 0 <= w < 0x1_0000_0000

  /** A C++ `int` (32 bits, two's complement). */
  type Int32 = i: int | -0x8000_0000 <= i < 0x8000_0000

  /** An opaque Qubit or Result handle, viewed as the 64-bit integer
      that `reinterpret_cast<int64_t>` yields for it. */
  type Handle = int

  /** `static_cast<unsigned>` of a wider integer: keeps the low 32 bits. */
  function Low32(w: int): (r: Word32)
    ensures (r - w) % TWO_32 == 0
    ensures 0 <= w < TWO_32 ==> r == w
  {
    w % TWO_32
  }

  /** `static_cast<int>` of a 64-bit integer: the low 32 bits read as a
      two's-complement number. */
  function ToInt32(w: int): (r: Int32)
    ensures (r - w) % TWO_32 == 0
    ensures -TWO_31 <= w < TWO_31 ==> r == w
  {
    var low := w % TWO_32;
    if low < TWO_31 then low else low - TWO_32
  }

  /** Two integers that agree modulo 2^32 and both lie in one window of
      2^32 consecutive values are equal: the narrowing casts are injective
      on the type they start from. */
  lemma SameWindowSameValue(a: int, b: int, lo: int)
    requires lo <= a < lo + TWO_32 && lo <= b < lo + TWO_32
    requires (a - b) % TWO_32 == 0
    ensures a == b
  {
    var k := (a - b) / TWO_32;
    assert a - b == k * TWO_32;
  }
}
