/** The runtime's PauliId enumeration. Its numeric encoding is a wire
    contract: I = 0, X = 1, Z = 2, Y = 3. A C-style cast from a byte to
    PauliId keeps whatever code the byte holds, so PauliId is a newtype
    over the enumeration's 32-bit storage rather than a closed datatype. */
module Pauli {
  import opened MachineInts

  newtype PauliId = c: int | -0x8000_0000 <= c < 0x8000_0000

  const PauliI: PauliId := 0
  const PauliX: PauliId := 1
  const PauliZ: PauliId := 2
  const PauliY: PauliId := 3

  /** True of the four codes the enumeration names. */
  predicate IsNamed(p: PauliId) {
    p == PauliI || p == PauliX || p == PauliY || p == PauliZ
  }

  /** `(PauliId)(b)`: the cast from a basis byte. */
  function FromByte(b: byte): (p: PauliId)
    ensures p as int == b
    ensures b <= 3 <==> IsNamed(p)
  {
    b as PauliId
  }

  /** Element-wise conversion of a buffer of basis bytes. */
  function FromBytes(bases: seq<byte>): (ps: seq<PauliId>)
    ensures |ps| == |bases|
    ensures forall i :: 0 <= i < |bases| ==> ps[i] as int == bases[i]
  {
    seq(|bases|, i requires 0 <= i < |bases| => FromByte(bases[i]))
  }

  /** The conversion loses nothing: two byte buffers convert to the same
      PauliId sequence only if they are the same buffer. */
  lemma FromBytesInjective(a: seq<byte>, b: seq<byte>)
    requires FromBytes(a) == FromBytes(b)
    ensures a == b
  {
    assert |a| == |b|;
    forall i | 0 <= i < |a|
      ensures a[i] == b[i]
    {
      assert FromBytes(a)[i] == FromBytes(b)[i];
    }
  }
}
