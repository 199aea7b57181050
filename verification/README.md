# QIR runtime backend layer — a Dafny model

This project models three sequential pieces of the QIR runtime's backend
layer, the contract between compiled quantum programs and the simulator
or hardware that executes them:

- **The test backends** of the QIR static tests. `QubitsResultsTestSimulator`
  is the lifecycle validator. It keeps one `int` slot per qubit and per
  result, holding 0, 1 or `RELEASED` (-1). The result slots start with
  the canonical Zero (index 0) and One (index 1). `FunctorsTestSimulator`
  is a classical-bit backend with X, n-controlled X and M, where a result
  handle is the measured bit itself.
- **The open-systems backend adapter.** It hands out qubit ids from an
  `unsigned` counter that release never rewinds. Results are the handles
  0 and 1. Plain single-qubit gates and measurement are forwarded to the
  native engine. Everything else raises an unsupported-operation error.
- **The `assertmeasurementprobability` instruction.** It checks the array
  sizes, complements the probability when One is expected, converts basis
  bytes to `PauliId`, and calls the backend's `AssertProbability`. When
  that check fails, the program fails with the caller's message.

Modules, one per concept:

| file | module | models |
|---|---|---|
| machine_ints.dfy | `MachineInts` | the `static_cast`s applied to handles (low 32 bits, two's complement) |
| pauli.dfy | `Pauli` | the `PauliId` encoding I=0, X=1, Z=2, Y=3 and the byte-to-PauliId cast |
| decimal.dfy | `Decimal` | `std::to_string` of an unsigned id, and its inverse |
| qubit_slots.dfy | `QubitSlots` | the slot vector both test backends share: GetQubitId, AllocateQubit, ReleaseQubit, X |
| qubits_results_sim.dfy | `QubitsResultsSim` | the lifecycle validator, plus whole runs of driver calls |
| functors_sim.dfy | `FunctorsSim` | the functor test backend: ControlledX, M, result equality |
| open_systems.dfy | `OpenSystems` | the adapter's operations and its log of native calls |
| open_systems_dispatch.dfy | `OpenSystemsDispatch` | the adapter's whole request surface, runs and sessions |
| assert_measurement.dfy | `AssertMeasurement` | the assertion instruction over an explicitly passed backend |

How the model is set up:

- Every `REQUIRE` in the test backends becomes an observable `Violated`
  outcome that leaves the state unchanged. It is not a precondition. This
  is what lets "releasing twice is a violation" be stated and proved.
- A handle is the integer its pointer reinterprets to. `GetQubitId`
  narrows it with `static_cast<int>`, and that narrowing is modelled.
- The open-systems counter wraps at 2^32, as an `unsigned` does.
- The native engine is a log of `NativeCall`s. A measurement's outcome is
  a bit chosen by an `Engine` function of that log.
- The assertion instruction takes the active backend as a parameter: its
  `AreEqualResults`, its `UseOne()` and its `AssertProbability`. The last
  is an uninterpreted oracle. It answers holds, does not hold, or raises.

Two behaviours of the code are worth knowing; the model keeps both:

- The lifecycle validator treats the canonical results as permanent in
  intent: its disabled closing check (qir-driver.cpp lines 167-173) looks
  only at results from index 2 on, those created by measurement. Yet its
  `ReleaseResult` accepts handle 0 or 1 like any other result, and after
  that, comparing against the released canonical result is a violation
  (`CanonicalResultCanBeReleased`).
- `FunctorsTestSimulator::ControlledX` stops at the first control that
  holds 0. Controls after it are not checked at all, so a released
  control there goes unnoticed (`ControlledXStopsAtFirstZero`).

## Model

| member | source | states |
|---|---|---|
| Pauli.FromByte | src/Qir/Runtime/lib/QSharpFoundation/AssertMeasurement.cpp:41 | the cast keeps the byte's code; the result is one of the four named Paulis exactly when the byte is at most 3 |
| Pauli.FromBytes | src/Qir/Runtime/lib/QSharpFoundation/AssertMeasurement.cpp:37-42 | the converted sequence has the length of the byte buffer, and element i carries code bases[i] |
| Pauli.FromBytesInjective | src/Qir/Runtime/lib/QSharpFoundation/AssertMeasurement.cpp:38-42 | conversion loses no information: equal PauliId sequences come from equal byte buffers |
| Decimal.NatToDecimal | src/Qir/Runtime/lib/Simulators/OpenSystemsSimulator.cpp:126 | the rendering is a non-empty string of decimal digits with no leading zero |
| Decimal.DecimalRoundTrip | src/Qir/Runtime/lib/Simulators/OpenSystemsSimulator.cpp:124-127 | reading the decimal rendering back yields the number rendered |
| QubitSlots.SlotId | src/QirRuntime/test/QIR-static/qir-driver.cpp:79-95 | a handle resolves exactly when its `int` narrowing is a valid index, to that narrowed id, which agrees with the handle modulo 2^32; a negative id is reported as negative first, and only a non-negative id past the end as out of range |
| QubitSlots.LiveSlotId | src/QirRuntime/test/QIR-static/qir-driver.cpp:110-113 | resolution succeeds exactly for live handles; an in-range released handle is reported as released |
| QubitSlots.Allocate | src/QirRuntime/test/QIR-static/qir-driver.cpp:97-101 | a new slot in state 0 is appended, earlier slots are unchanged, and the handle is the old length; below 2^31 slots the handle resolves back to that slot; FunctorsTestSimulator's AllocateQubit (lines 236-240) is the same code |
| QubitSlots.Release | src/QirRuntime/test/QIR-static/qir-driver.cpp:103-108 | succeeds exactly on a live handle, which is then no longer live; no other slot changes; FunctorsTestSimulator's ReleaseQubit (lines 242-247) is the same code |
| QubitSlots.Flip | src/QirRuntime/test/QIR-static/qir-driver.cpp:110-115 | X succeeds exactly on a live qubit, maps its bit s to 1 - s, changes no other slot, and keeps the slots well formed; FunctorsTestSimulator's X (lines 249-254) is the same code |
| QubitSlots.ReleaseTwiceViolates | src/QirRuntime/test/QIR-static/qir-driver.cpp:103-108 | releasing a live qubit twice is reported on the second release, naming its slot |
| QubitSlots.FlipInvolutive | src/QirRuntime/test/QIR-static/qir-driver.cpp:110-115 | X applied twice to a live qubit restores every slot |
| QubitSlots.ReleasedSlotRejectsEverything | src/QirRuntime/test/QIR-static/qir-driver.cpp:103-115 | release and X on a released qubit are both reported, never acted on |
| QubitsResultsSim.Init | src/QirRuntime/test/QIR-static/qir-driver.cpp:76-77 | a fresh validator has no qubits and exactly two results, UseZero() naming a Zero result and UseOne() a One result, and the state invariant holds |
| QubitsResultsSim.AllocateQubit | src/QirRuntime/test/QIR-static/qir-driver.cpp:97-101 | appends a qubit in state 0 whose handle is the old qubit count; earlier qubits and all results are unchanged; the invariant is kept |
| QubitsResultsSim.ReleaseQubit | src/QirRuntime/test/QIR-static/qir-driver.cpp:103-108 | succeeds exactly on a live qubit, leaves results alone, and the qubit is no longer live |
| QubitsResultsSim.X | src/QirRuntime/test/QIR-static/qir-driver.cpp:110-115 | succeeds exactly on a live qubit, flips it, leaves results alone, and keeps the invariant |
| QubitsResultsSim.M | src/QirRuntime/test/QIR-static/qir-driver.cpp:117-123 | succeeds exactly on a live qubit; qubits are unchanged; the qubit's bit is appended as a new result whose handle is its index, which is at least 2 |
| QubitsResultsSim.AreEqualResults | src/QirRuntime/test/QIR-static/qir-driver.cpp:125-133 | defined exactly when both results exist and are live; true exactly when they hold the same bit; both handles are range-checked before either is checked for release, and the first failing check is the one reported |
| QubitsResultsSim.AreEqualResultsChecksRangesFirst | src/QirRuntime/test/QIR-static/qir-driver.cpp:127-130 | with the first result released and the second out of range, the out-of-range second result is what gets reported |
| QubitsResultsSim.UseZero | src/QirRuntime/test/QIR-static/qir-driver.cpp:142-145 | the canonical Zero resolves to the first seeded result slot |
| QubitsResultsSim.UseOne | src/QirRuntime/test/QIR-static/qir-driver.cpp:147-150 | the canonical One resolves to the second seeded result slot |
| QubitsResultsSim.ReleaseResult | src/QirRuntime/test/QIR-static/qir-driver.cpp:135-140 | succeeds exactly on a live result, which is then no longer live; qubits are unchanged |
| QubitsResultsSim.ReleaseResultTwiceViolates | src/QirRuntime/test/QIR-static/qir-driver.cpp:135-140 | a second release of the same result is reported as a violation |
| QubitsResultsSim.MeasurementMatchesCanonical | src/QirRuntime/test/QIR-static/qir-driver.cpp:117-150 | a measurement of a qubit in state 1 compares equal to UseOne(), and one in state 0 equal to UseZero(), while the canonical results are live |
| QubitsResultsSim.CanonicalResultsDiffer | src/QirRuntime/test/QIR-static/qir-driver.cpp:125-150 | while live, UseZero() and UseOne() each equal themselves and differ from each other |
| QubitsResultsSim.CanonicalResultCanBeReleased | src/QirRuntime/test/QIR-static/qir-driver.cpp:135-140 | the code lets UseOne() be released, after which comparing against it is a violation |
| QubitsResultsSim.StepKeepsValid | src/QirRuntime/test/QIR-static/qir-driver.cpp:97-140 | every driver call that succeeds keeps the state invariant |
| QubitsResultsSim.RunKeepsValid | src/QirRuntime/test/QIR-static/qir-driver.cpp:97-140 | every state reached by a violation-free run from a valid state is valid |
| QubitsResultsSim.StepReleaseAccounting | src/QirRuntime/test/QIR-static/qir-driver.cpp:97-115 | a call changes a slot from live to released exactly when it releases that slot; no call revives a released slot |
| QubitsResultsSim.RunReleaseAccounting | src/QirRuntime/test/QIR-static/qir-driver.cpp:103-108 | over a violation-free run, a slot's release marker equals its initial marker plus the number of releases of it |
| QubitsResultsSim.FreshRunReleasesEachQubitOnce | src/QirRuntime/test/QIR-static/qir-driver.cpp:152-165 | from a fresh validator, each qubit is released at most once; when the closing check finds every qubit released, each was released exactly once |
| FunctorsSim.UseZero | src/QirRuntime/test/QIR-static/qir-driver.cpp:285-288 | the canonical Zero is the bit 0 itself and differs from the handle of One |
| FunctorsSim.UseOne | src/QirRuntime/test/QIR-static/qir-driver.cpp:290-293 | the canonical One is the bit 1 itself and differs from UseZero() |
| FunctorsSim.AreEqualResults | src/QirRuntime/test/QIR-static/qir-driver.cpp:277-281 | results are equal exactly when their handles are equal |
| FunctorsSim.M | src/QirRuntime/test/QIR-static/qir-driver.cpp:270-275 | succeeds exactly on a live qubit, and the result handle is the qubit's bit |
| FunctorsSim.ControlledX | src/QirRuntime/test/QIR-static/qir-driver.cpp:256-268 | controlled X keeps the number of qubits and keeps every slot a bit or released |
| FunctorsSim.ControlledXMatchesReference | src/QirRuntime/test/QIR-static/qir-driver.cpp:256-268 | with live controls it flips the target exactly when every control is 1 (so with no controls it is X), and otherwise changes nothing |
| FunctorsSim.ControlledXStopsAtFirstZero | src/QirRuntime/test/QIR-static/qir-driver.cpp:258-266 | the first live control holding 0, after controls that are all live and 1, ends the call unchanged, whatever the later controls and the target are |
| FunctorsSim.ControlledXRejectsDeadControl | src/QirRuntime/test/QIR-static/qir-driver.cpp:228-266 | a control reached before any control holding 0 that is negative, out of range or released is reported with the violation GetQubitId or the liveness check gives for it |
| FunctorsSim.ControlledXRejectsReleasedControl | src/QirRuntime/test/QIR-static/qir-driver.cpp:258-266 | a released control reached before any control holding 0 is reported as a violation |
| FunctorsSim.MeasurementMatchesCanonical | src/QirRuntime/test/QIR-static/qir-driver.cpp:270-293 | M of a qubit equals UseOne() exactly when its bit is 1, and UseZero() exactly when it is 0 |
| OpenSystems.Create | src/Qir/Runtime/lib/Simulators/OpenSystemsSimulator.cpp:94-98 | construction makes exactly one init(3) call, starts the counter at 0, and keeps the instance id modulo 2^32 |
| OpenSystems.Teardown | src/Qir/Runtime/lib/Simulators/OpenSystemsSimulator.cpp:99-102 | destruction adds exactly one destroy of the adapter's own instance |
| OpenSystems.AllocateQubit | src/Qir/Runtime/lib/Simulators/OpenSystemsSimulator.cpp:129-134 | the new id is the current counter and reads back as itself; the counter advances by one and wraps to 0 at 2^32; no native call is made |
| OpenSystems.ReleaseQubit | src/Qir/Runtime/lib/Simulators/OpenSystemsSimulator.cpp:136-139 | releasing a qubit changes nothing, the id counter included |
| OpenSystems.ReleaseResult | src/Qir/Runtime/lib/Simulators/OpenSystemsSimulator.cpp:153 | releasing a result changes nothing |
| OpenSystems.Apply | src/Qir/Runtime/lib/Simulators/OpenSystemsSimulator.cpp:177-250 | a plain gate adds exactly one native call, on the adapter's own instance and the qubit's id, and changes nothing else |
| OpenSystems.M | src/Qir/Runtime/lib/Simulators/OpenSystemsSimulator.cpp:141-146 | measurement adds one native m call on the qubit's id; the result is handle 0 or 1, and equals UseOne() exactly when the engine reported 1 |
| OpenSystems.UseZero | src/Qir/Runtime/lib/Simulators/OpenSystemsSimulator.cpp:162-165 | the canonical Zero is handle 0, which reads as Zero |
| OpenSystems.UseOne | src/Qir/Runtime/lib/Simulators/OpenSystemsSimulator.cpp:167-170 | the canonical One is handle 1, which reads as One |
| OpenSystems.QubitIndex | src/Qir/Runtime/lib/Simulators/OpenSystemsSimulator.cpp:71-74 | the engine index of a qubit agrees with its handle modulo 2^32, and is the handle itself for every id the counter hands out |
| OpenSystems.AreEqualResults | src/Qir/Runtime/lib/Simulators/OpenSystemsSimulator.cpp:172-175 | results are equal exactly when their handles are equal |
| OpenSystems.GetResultValue | src/Qir/Runtime/lib/Simulators/OpenSystemsSimulator.cpp:155-160 | defined for handles 0 and 1 only; 0 reads as Zero and 1 as One |
| OpenSystems.GetBasis | src/Qir/Runtime/lib/Simulators/OpenSystemsSimulator.cpp:63-66 | a non-negative PauliId code reaches the engine unchanged |
| OpenSystems.QubitToString | src/Qir/Runtime/lib/Simulators/OpenSystemsSimulator.cpp:124-127 | the string is a non-empty run of digits with no leading zero that reads back as the qubit's id, which makes it exactly the decimal rendering of the id |
| OpenSystems.GetBasisMatchesNativeBasis | src/Qir/Runtime/lib/Simulators/OpenSystemsSimulator.cpp:54-66 | the runtime's I, X, Y, Z reach the engine as the engine's own codes for I, X, Y, Z |
| OpenSystems.GetBasisInjective | src/Qir/Runtime/lib/Simulators/OpenSystemsSimulator.cpp:63-66 | distinct PauliIds reach the engine as distinct codes |
| OpenSystems.CanonicalResults | src/Qir/Runtime/lib/Simulators/OpenSystemsSimulator.cpp:155-175 | UseZero() and UseOne() equal themselves, differ from each other, and read as Zero and One |
| OpenSystems.MeasurementMatchesCanonical | src/Qir/Runtime/lib/Simulators/OpenSystemsSimulator.cpp:141-160 | a measured result reads as One exactly when the engine reported 1, and equals UseZero() exactly when it reported 0 |
| OpenSystems.QubitToStringInjective | src/Qir/Runtime/lib/Simulators/OpenSystemsSimulator.cpp:124-127 | qubits with different ids render as different strings |
| OpenSystemsDispatch.Step | src/Qir/Runtime/lib/Simulators/OpenSystemsSimulator.cpp:104-281 | a request raises unsupported exactly when the engine cannot serve it, with operation_not_supported for the diagnostics and not yet implemented for the rest; a served request keeps the instance id and adds at most one native call (exactly one for a gate or M) on that instance; only allocation moves the counter |
| OpenSystemsDispatch.RunAllocatesConsecutiveIds | src/Qir/Runtime/lib/Simulators/OpenSystemsSimulator.cpp:129-139 | while the counter does not wrap, the ids a run hands out are consecutive from the starting counter, whatever comes between allocations, and the counter ends just past them |
| OpenSystemsDispatch.FreshAdapterIdsAreContiguous | src/Qir/Runtime/lib/Simulators/OpenSystemsSimulator.cpp:69 | within fewer than 2^32 requests, a fresh adapter hands out 0, 1, 2, ... in order: contiguous, strictly increasing, never reused |
| OpenSystemsDispatch.CounterWrapsAt2To32 | src/Qir/Runtime/lib/Simulators/OpenSystemsSimulator.cpp:129-134 | after id 2^32 - 1 the next id handed out is 0 |
| OpenSystemsDispatch.RunForwardsToOwnInstance | src/Qir/Runtime/lib/Simulators/OpenSystemsSimulator.cpp:177-250 | every native call a run adds is a gate or measurement on the adapter's own instance, and the instance id never changes |
| OpenSystemsDispatch.SessionOwnsOneInstance | src/Qir/Runtime/lib/Simulators/OpenSystemsSimulator.cpp:94-102 | over an adapter's life, init comes first and only once, destroy of the same instance comes last and only once, and every call between goes to that instance |
| AssertMeasurement.AssertMeasurementProbability | src/Qir/Runtime/lib/QSharpFoundation/AssertMeasurement.cpp:21-49 | fails with the fixed size message, and makes no further call, exactly when the sizes differ; otherwise it makes one AssertProbability call with the qubit count, the converted bases in order, the qubits, the probability complemented exactly when One is expected, the tolerance and no message; it returns when that check holds, fails with the caller's message when it does not, and passes a backend error through |
| AssertMeasurement.ProbabilityOfZero | src/Qir/Runtime/lib/QSharpFoundation/AssertMeasurement.cpp:31-35 | the probability of Zero checked is 1 - prob when the expected result equals UseOne(), and prob unchanged otherwise |
| AssertMeasurement.PolarityIsComplement | src/Qir/Runtime/lib/QSharpFoundation/AssertMeasurement.cpp:31-35 | expecting One with probability p behaves exactly as expecting Zero with probability 1 - p |
| AssertMeasurement.OpenSystemsAssertIsUnsupported | src/Qir/Runtime/lib/QSharpFoundation/AssertMeasurement.cpp:44-48 | with the open-systems adapter as backend, a well-sized call always ends in operation_not_supported, after the complement for One |
| AssertMeasurement.ZeroStateExamples | src/Qir/Runtime/lib/QSharpFoundation/AssertMeasurement.cpp:24-48 | for a qubit certainly in Zero, asserting Zero with probability 1 returns, with probability 0 fails with the caller's message, and two bases for one qubit fail with the size message |

## Left out

- The native engine's C interface (`init`, `destroy`, `x` to `t_adj`, `cnot`, `m`, noise model, `get_current_state`, `lasterr`, `dump_to_console`). It is foreign code whose behaviour is not visible. Calls are recorded in a log. A measurement's outcome is any bit an `Engine` function of the log chooses. The engine's `size_t` output is narrowed to that bit.
- `OpenSystemSimulator::DumpState`, a debugging aid that only prints, and `GetQubitIds`, which nothing calls.
- The QIR-compiled test bodies (`Test_Arrays`, `TestMultidimArrays`, `TestFailWithRangeString`, `TestPartials`, `Test_Qubit_Result_Management__body`, `TestControlled__body`). Their logic lives in generated code that is not part of this model.
- The Catch harness, `DebugLog`/`DebugLogPtr` console output, and the `g_ctrqapi` global pointer.
- The execution context, `GlobalContext()`, `QirContextScope` and the `dynamic_cast` to `IDiagnostics`. The backend is passed explicitly instead.
- Floating point. Probabilities and tolerances are `real`, so `1.0 - prob` is exact. The tolerance comparison belongs to the backend's uninterpreted `AssertProbability`.
- AssertMeasurement.AssertMeasurementProbability: the backend's `AreEqualResults` is taken as a total comparison. A backend that reports a violation inside that comparison, as the lifecycle validator can, is not modelled there.
- `quantum__rt__fail` is modelled as the `Failed(message)` outcome. Its unwinding of the program is not modelled.
- `FunctorsTestSimulator::ReleaseResult`. It is an empty body on results that are never allocated, so it has nothing to state.
- Basis bytes are read as unsigned 0..255. Whether the array buffer's `char` is signed is not visible here, and codes above 127 are not used by any Pauli.
- `src/Qir/Controller/Constant.cs` and `src/Azure/Azure.Quantum.Client.Test/Helpers/TestConstants.cs`. They hold only string constants.
- OpenSystemsDispatch.RunAllocatesConsecutiveIds: holds only while fewer than 2^32 requests are served. Past that, the `unsigned` counter wraps and ids repeat (CounterWrapsAt2To32).
- QubitsResultsSim.MeasurementMatchesCanonical: needs fewer than 2^31 results. Past that, the `int` cast in `GetResultId` no longer recovers a new result's index.
