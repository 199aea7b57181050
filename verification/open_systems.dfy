/** The open-systems backend adapter. It owns one native simulator
    instance, hands out qubit ids from a counter, and forwards each plain
    single-qubit gate and each measurement as one call into the native
    engine. The engine itself is foreign: the adapter keeps the log of
    calls it has made, and a measurement's outcome is whatever an `Engine`
    function of that log says. Everything the engine cannot do is
    reported as unsupported. */
module OpenSystems {
  import opened MachineInts
  import opened Pauli
  import opened Decimal

  /** The gates the native engine exports one entry point each for. */
  datatype Gate = GateX | GateY | GateZ | GateH | GateS | GateAdjointS | GateT | GateAdjointT

  /** A call into the native engine's C interface. */
  datatype NativeCall =
    | Init(capacity: nat)
    | Destroy(simulatorId: Word32)
    | ApplyGate(simulatorId: Word32, gate: Gate, index: Word32)
    | MeasureCall(simulatorId: Word32, index: Word32)

  /** The measurement outcome the engine reports, given every call it has
      received so far, the measurement included. */
  type Engine = seq<NativeCall> -> bool

  /** The capacity the constructor asks the engine for. */
  const INITIAL_CAPACITY: nat := 3

  /** Reason carried by the unsupported diagnostics. */
  const NOT_SUPPORTED: string := "operation_not_supported"

  /** Reason carried by the operations left unimplemented. */
  const NOT_IMPLEMENTED: string := "not yet implemented"

  datatype Adapter = Adapter(simulatorId: Word32, nextQubitId: Word32, calls: seq<NativeCall>)

  /** Either the operation's value or the unsupported-operation error. */
  datatype Outcome<T> = Ok(value: T) | Unsupported(reason: string)

  datatype ResultValue = ResultZero | ResultOne

  /** Construction: one `init(3)`; the instance id it returns, narrowed to
      `unsigned`, identifies the engine for the adapter's whole life. */
  function Create(engineId: nat): (a: Adapter)
    ensures a.calls == [Init(INITIAL_CAPACITY)]
    ensures a.nextQubitId == 0
    ensures (a.simulatorId - engineId) % TWO_32 == 0
  {
    Adapter(Low32(engineId), 0, [Init(INITIAL_CAPACITY)])
  }

  /** Destruction: one `destroy` of the adapter's own instance. */
  function Teardown(a: Adapter): (b: Adapter)
    ensures b.calls == a.calls + [Destroy(a.simulatorId)]
    ensures b.simulatorId == a.simulatorId && b.nextQubitId == a.nextQubitId
  {
    a.(calls := a.calls + [Destroy(a.simulatorId)])
  }

  /** GetQubitId: the handle narrowed to `unsigned`. */
  function QubitIndex(q: Handle): (r: Word32)
    ensures 0 <= q < TWO_32 ==> r == q
    ensures (r - q) % TWO_32 == 0
  {
    Low32(q)
  }

  /** AllocateQubit: the current counter is the new id; the `unsigned`
      counter then advances, wrapping at 2^32. No native call is made. */
  function AllocateQubit(a: Adapter): (r: (Adapter, Handle))
    ensures r.1 == a.nextQubitId && QubitIndex(r.1) == a.nextQubitId
    ensures r.0.simulatorId == a.simulatorId && r.0.calls == a.calls
    ensures a.nextQubitId + 1 < TWO_32 ==> r.0.nextQubitId == a.nextQubitId + 1
    ensures a.nextQubitId + 1 == TWO_32 ==> r.0.nextQubitId == 0
  {
    (a.(nextQubitId := Low32(a.nextQubitId + 1)), a.nextQubitId)
  }

  /** ReleaseQubit and ReleaseResult do nothing; in particular released
      ids are never handed out again. */
  function ReleaseQubit(a: Adapter, q: Handle): (b: Adapter)
    ensures b.nextQubitId == a.nextQubitId && b.calls == a.calls && b == a
  {
    a
  }

  function ReleaseResult(a: Adapter, r: Handle): (b: Adapter)
    ensures b.nextQubitId == a.nextQubitId && b.calls == a.calls && b == a
  {
    a
  }

  /** A plain single-qubit gate: exactly one native call, on this adapter's
      instance and the qubit's id. */
  function Apply(a: Adapter, g: Gate, q: Handle): (b: Adapter)
    ensures b.calls == a.calls + [ApplyGate(a.simulatorId, g, QubitIndex(q))]
    ensures b.simulatorId == a.simulatorId && b.nextQubitId == a.nextQubitId
  {
    a.(calls := a.calls + [ApplyGate(a.simulatorId, g, QubitIndex(q))])
  }

  /** M: one native measurement; the engine's bit becomes the result
      handle 0 or 1. */
  function M(a: Adapter, q: Handle, engine: Engine): (r: (Adapter, Handle))
    ensures r.0.calls == a.calls + [MeasureCall(a.simulatorId, QubitIndex(q))]
    ensures r.0.simulatorId == a.simulatorId && r.0.nextQubitId == a.nextQubitId
    ensures r.1 == 0 || r.1 == 1
    ensures AreEqualResults(r.1, UseOne()) <==> engine(r.0.calls)
  {
    var calls := a.calls + [MeasureCall(a.simulatorId, QubitIndex(q))];
    (a.(calls := calls), if engine(calls) then 1 else 0)
  }

  /** The canonical Zero: a handle that reads as Zero. */
  function UseZero(): (r: Handle)
    ensures r == 0 && GetResultValue(r) == ResultZero
  {
    0
  }

  /** The canonical One: a handle that reads as One. */
  function UseOne(): (r: Handle)
    ensures r == 1 && GetResultValue(r) == ResultOne
  {
    1
  }

  /** Results are compared as handles. */
  function AreEqualResults(r1: Handle, r2: Handle): (b: bool)
    ensures b <==> r1 == r2
  {
    r1 == r2
  }

  /** Defined for handles whose `unsigned` value is 0 or 1 (the code
      asserts this): 0 is Zero and 1 is One. */
  function GetResultValue(r: Handle): (v: ResultValue)
    requires Low32(r) == 0 || Low32(r) == 1
    ensures v == ResultZero <==> Low32(r) == 0
    ensures v == ResultOne <==> Low32(r) == 1
  {
    if Low32(r) == 0 then ResultZero else ResultOne
  }

  /** GetBasis: the PauliId code cast to `unsigned`. */
  function GetBasis(p: PauliId): (b: Word32)
    ensures 0 <= p ==> b == p as int
  {
    Low32(p as int)
  }

  /** QubitToString: the decimal rendering of the qubit's id. */
  function QubitToString(q: Handle): (s: string)
    ensures forall i :: 0 <= i < |s| ==> IsDigit(s[i])
    ensures |s| >= 1 && (|s| > 1 ==> s[0] != '0')
    ensures DecimalValue(s) == QubitIndex(q)
  {
    DecimalRoundTrip(QubitIndex(q));
    NatToDecimal(QubitIndex(q))
  }

  /** The engine defines its own basis enumeration; these are its codes. */
  datatype NativeBasis = NativePauliI | NativePauliX | NativePauliY | NativePauliZ

  function NativeCode(b: NativeBasis): Word32 {
    match b
    case NativePauliI => 0
    case NativePauliX => 1
    case NativePauliY => 3
    case NativePauliZ => 2
  }

  /** GetBasis carries each named PauliId to the engine's code for the
      same basis. */
  lemma GetBasisMatchesNativeBasis()
    ensures GetBasis(PauliI) == NativeCode(NativePauliI)
    ensures GetBasis(PauliX) == NativeCode(NativePauliX)
    ensures GetBasis(PauliY) == NativeCode(NativePauliY)
    ensures GetBasis(PauliZ) == NativeCode(NativePauliZ)
  {
  }

  /** GetBasis is injective: distinct PauliIds reach the engine as
      distinct codes. */
  lemma GetBasisInjective(p: PauliId, p': PauliId)
    requires GetBasis(p) == GetBasis(p')
    ensures p == p'
  {
    SameWindowSameValue(p as int, p' as int, -TWO_31);
  }

  /** The canonical results: each equals itself, they differ from each
      other, and they read as Zero and One. */
  lemma CanonicalResults()
    ensures AreEqualResults(UseZero(), UseZero()) && AreEqualResults(UseOne(), UseOne())
    ensures !AreEqualResults(UseZero(), UseOne()) && !AreEqualResults(UseOne(), UseZero())
    ensures GetResultValue(UseZero()) == ResultZero && GetResultValue(UseOne()) == ResultOne
  {
  }

  /** A measured handle reads as the engine's bit and compares equal to
      the canonical result of that bit. */
  lemma MeasurementMatchesCanonical(a: Adapter, q: Handle, engine: Engine)
    ensures var (b, r) := M(a, q, engine);
      && (GetResultValue(r) == ResultOne <==> engine(b.calls))
      && (AreEqualResults(r, UseZero()) <==> !engine(b.calls))
  {
  }

  /** Qubit strings identify qubits: distinct ids render differently. */
  lemma QubitToStringInjective(q: Handle, q': Handle)
    requires QubitToString(q) == QubitToString(q')
    ensures QubitIndex(q) == QubitIndex(q')
  {
    DecimalInjective(QubitIndex(q), QubitIndex(q'));
  }
}
