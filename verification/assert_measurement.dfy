/** The `assertmeasurementprobability` instruction. It checks the array
    sizes, turns the expected result and probability into a probability of
    Zero, converts the basis bytes to PauliIds and asks the backend's
    diagnostics whether the state agrees, failing the program with the
    caller's message when it does not. The backend is passed in; its
    AssertProbability is an uninterpreted oracle. */
module AssertMeasurement {
  import opened MachineInts
  import opened Pauli
  import OS = OpenSystems

  /** The fixed diagnostic of the size check. */
  const SIZE_MISMATCH: string := "Both input arrays - bases, qubits - for AssertMeasurementProbability(), must be of same size."

  datatype Option<T> = None | Some(value: T)

  /** The arguments of one IDiagnostics::AssertProbability call. */
  datatype ProbabilityQuery<Q> = ProbabilityQuery(
    numTargets: nat,
    bases: seq<PauliId>,
    targets: seq<Q>,
    probabilityOfZero: real,
    precision: real,
    failureMessage: Option<string>)

  /** What the diagnostics answer: the assertion holds, it does not, or
      the backend raises an error (such as unsupported). */
  datatype Verdict = Holds | DoesNotHold | Raises(reason: string)

  /** The part of the active backend the instruction uses. */
  datatype Backend<!R, !Q> = Backend(
    areEqualResults: (R, R) -> bool,
    useOne: R,
    assertProbability: ProbabilityQuery<Q> -> Verdict)

  /** How the instruction ends: it returns, the program fails with a
      message, or a backend error propagates. */
  datatype Outcome = Returned | Failed(message: string) | Raised(reason: string)

  /** The outcome and the diagnostics call made on the way, if any. */
  datatype Trace<Q> = Trace(outcome: Outcome, query: Option<ProbabilityQuery<Q>>)

  /** The probability of Zero to check: an expectation of One is the
      complement of the given probability. */
  function ProbabilityOfZero<R, Q>(backend: Backend<R, Q>, result: R, prob: real): (p: real)
    ensures backend.areEqualResults(result, backend.useOne) ==> p == 1.0 - prob
    ensures !backend.areEqualResults(result, backend.useOne) ==> p == prob
  {
    if backend.areEqualResults(result, backend.useOne) then 1.0 - prob else prob
  }

  function AssertMeasurementProbability<R, Q>(
    backend: Backend<R, Q>, bases: seq<byte>, qubits: seq<Q>, result: R, prob: real, msg: string, tol: real): (t: Trace<Q>)
    // A size mismatch fails with the fixed diagnostic before anything else.
    ensures |bases| != |qubits| <==> t == Trace(Failed(SIZE_MISMATCH), None)
    // Otherwise exactly one diagnostics call is made, with these arguments.
    ensures |bases| == |qubits| ==> t.query.Some?
    ensures t.query.Some? ==> var query := t.query.value;
      && query.numTargets == |qubits|
      && |query.bases| == |bases|
      && (forall i :: 0 <= i < |bases| ==> query.bases[i] as int == bases[i])
      && query.targets == qubits
      && (backend.areEqualResults(result, backend.useOne) ==> query.probabilityOfZero == 1.0 - prob)
      && (!backend.areEqualResults(result, backend.useOne) ==> query.probabilityOfZero == prob)
      && query.precision == tol
      && query.failureMessage == None
    // The verdict decides the outcome; a failed assertion carries the caller's message.
    ensures t.query.Some? ==> match backend.assertProbability(t.query.value)
      case Holds => t.outcome == Returned
      case DoesNotHold => t.outcome == Failed(msg)
      case Raises(reason) => t.outcome == Raised(reason)
  {
    if |bases| != |qubits| then
      Trace(Failed(SIZE_MISMATCH), None)
    else
      var query := ProbabilityQuery(|qubits|, FromBytes(bases), qubits, ProbabilityOfZero(backend, result, prob), tol, None);
      var outcome := match backend.assertProbability(query)
        case Holds => Returned
        case DoesNotHold => Failed(msg)
        case Raises(reason) => Raised(reason);
      Trace(outcome, Some(query))
  }

  /** Expecting One with probability p asks the same question as expecting
      Zero with probability 1 - p, on any backend whose UseOne() equals
      itself and differs from the handle used for Zero. */
  lemma PolarityIsComplement<R, Q>(
    backend: Backend<R, Q>, zero: R, bases: seq<byte>, qubits: seq<Q>, p: real, msg: string, tol: real)
    requires backend.areEqualResults(backend.useOne, backend.useOne)
    requires !backend.areEqualResults(zero, backend.useOne)
    ensures AssertMeasurementProbability(backend, bases, qubits, backend.useOne, p, msg, tol)
         == AssertMeasurementProbability(backend, bases, qubits, zero, 1.0 - p, msg, tol)
  {
  }

  /** The open-systems adapter as the active backend: handle equality,
      UseOne() == 1, and diagnostics that always raise unsupported. */
  function OpenSystemsBackend(): Backend<Handle, Handle> {
    Backend(OS.AreEqualResults, OS.UseOne(), (_: ProbabilityQuery<Handle>) => Raises(OS.NOT_SUPPORTED))
  }

  /** On the open-systems adapter a well-sized call never returns: the
      unsupported diagnostics error propagates, after the complement has
      been applied for a One expectation. */
  lemma OpenSystemsAssertIsUnsupported(bases: seq<byte>, qubits: seq<Handle>, result: Handle, p: real, msg: string, tol: real)
    requires |bases| == |qubits|
    ensures var t := AssertMeasurementProbability(OpenSystemsBackend(), bases, qubits, result, p, msg, tol);
      && t.outcome == Raised(OS.NOT_SUPPORTED)
      && t.query.value.probabilityOfZero == (if result == OS.UseOne() then 1.0 - p else p)
  {
  }

  /** A backend whose qubits are deterministically in the Zero state in
      the Z basis: the probability of Zero is 1. */
  function ZeroStateBackend<R(==), Q>(one: R): Backend<R, Q> {
    Backend((r1: R, r2: R) => r1 == r2, one,
      (query: ProbabilityQuery<Q>) =>
        if -query.precision <= query.probabilityOfZero - 1.0 <= query.precision then Holds else DoesNotHold)
  }

  /** Asserting Zero with probability 1 on such a qubit returns; asserting
      it with probability 0 fails with the caller's message. */
  lemma ZeroStateExamples<Q>(q: Q, msg: string)
    ensures AssertMeasurementProbability(ZeroStateBackend<int, Q>(1), [PauliZ as int], [q], 0, 1.0, msg, 0.000000001).outcome == Returned
    ensures AssertMeasurementProbability(ZeroStateBackend<int, Q>(1), [PauliZ as int], [q], 0, 0.0, msg, 0.000000001).outcome == Failed(msg)
    ensures AssertMeasurementProbability(ZeroStateBackend<int, Q>(1), [PauliZ as int, PauliZ as int], [q], 0, 1.0, msg, 0.000000001).outcome == Failed(SIZE_MISMATCH)
  {
  }
}
