/** QubitsResultsTestSimulator: the lifecycle validator. It tracks every
    qubit and every result it has handed out and reports any use of a
    released handle and any double release. Results are a second slot
    vector, seeded with the canonical Zero (index 0) and One (index 1). */
module QubitsResultsSim {
  import opened MachineInts
  import opened QubitSlots

  datatype State = State(qubits: seq<int>, results: seq<int>)

  /** A fresh backend: no qubits, the two canonical results. */
  function Init(): (s: State)
    ensures Valid(s) && |s.qubits| == 0 && |s.results| == 2
    ensures s.results[UseZero()] == 0 && s.results[UseOne()] == 1
  {
    State([], [0, 1])
  }

  /** The canonical Zero: the handle of the first seeded result slot. */
  function UseZero(): (r: Handle)
    ensures ToInt32(r) == 0
  {
    0
  }

  /** The canonical One: the handle of the second seeded result slot. */
  function UseOne(): (r: Handle)
    ensures ToInt32(r) == 1
  {
    1
  }

  /** What every reachable state satisfies: slots hold bits or RELEASED,
      and the canonical slots hold their own value unless released. */
  predicate Valid(s: State) {
    && WellFormed(s.qubits)
    && WellFormed(s.results)
    && |s.results| >= 2
    && (s.results[0] == 0 || s.results[0] == RELEASED)
    && (s.results[1] == 1 || s.results[1] == RELEASED)
  }

  function AllocateQubit(s: State): (r: (State, Handle))
    ensures r.0.results == s.results
    ensures |r.0.qubits| == |s.qubits| + 1 && r.0.qubits[..|s.qubits|] == s.qubits
    ensures r.0.qubits[|s.qubits|] == 0 && r.1 == |s.qubits|
    ensures Valid(s) ==> Valid(r.0)
  {
    var (qubits, q) := Allocate(s.qubits);
    (s.(qubits := qubits), q)
  }

  function ReleaseQubit(s: State, q: Handle): (r: Checked<State>)
    ensures r.Ok? <==> Live(s.qubits, q)
    ensures r.Ok? ==> r.value.results == s.results && !Live(r.value.qubits, q)
    ensures r.Ok? ==> Release(s.qubits, q) == Ok(r.value.qubits)
    ensures r.Ok? && Valid(s) ==> Valid(r.value)
  {
    match Release(s.qubits, q)
    case Violated(v) => Violated(v)
    case Ok(qubits) => Ok(s.(qubits := qubits))
  }

  function X(s: State, q: Handle): (r: Checked<State>)
    ensures r.Ok? <==> Live(s.qubits, q)
    ensures r.Ok? ==> r.value.results == s.results && Flip(s.qubits, q) == Ok(r.value.qubits)
    ensures r.Ok? && Valid(s) ==> Valid(r.value)
  {
    match Flip(s.qubits, q)
    case Violated(v) => Violated(v)
    case Ok(qubits) => Ok(s.(qubits := qubits))
  }

  /** M: record the qubit's bit as a new result; the qubits are untouched. */
  function M(s: State, q: Handle): (r: Checked<(State, Handle)>)
    ensures r.Ok? <==> Live(s.qubits, q)
    ensures r.Ok? ==> r.value.0.qubits == s.qubits
    ensures r.Ok? ==> r.value.0.results == s.results + [s.qubits[ToInt32(q)]]
    ensures r.Ok? ==> r.value.1 == |s.results|
    ensures r.Ok? && Valid(s) ==> Valid(r.value.0) && r.value.1 >= 2
  {
    match LiveSlotId(s.qubits, q)
    case Violated(v) => Violated(v)
    case Ok(id) => Ok((s.(results := s.results + [s.qubits[id]]), |s.results|))
  }

  /** Both results must exist and be live; they are equal when they hold
      the same bit. Both handles are range-checked before either is
      checked for release, so that order decides which violation is
      reported. */
  function AreEqualResults(s: State, r1: Handle, r2: Handle): (r: Checked<bool>)
    ensures r.Ok? <==> Live(s.results, r1) && Live(s.results, r2)
    ensures r.Ok? ==> (r.value <==> s.results[ToInt32(r1)] == s.results[ToInt32(r2)])
    ensures !InRange(s.results, r1) ==> r == Violated(SlotId(s.results, r1).violation)
    ensures InRange(s.results, r1) && !InRange(s.results, r2) ==> r == Violated(SlotId(s.results, r2).violation)
    ensures InRange(s.results, r1) && InRange(s.results, r2) && !Live(s.results, r1)
      ==> r == Violated(SlotReleased(ToInt32(r1)))
    ensures InRange(s.results, r1) && InRange(s.results, r2) && Live(s.results, r1) && !Live(s.results, r2)
      ==> r == Violated(SlotReleased(ToInt32(r2)))
  {
    match SlotId(s.results, r1)
    case Violated(v) => Violated(v)
    case Ok(i1) =>
      match SlotId(s.results, r2)
      case Violated(v) => Violated(v)
      case Ok(i2) =>
        if s.results[i1] == RELEASED then Violated(SlotReleased(i1))
        else if s.results[i2] == RELEASED then Violated(SlotReleased(i2))
        else Ok(s.results[i1] == s.results[i2])
  }

  /** An out-of-range second result is reported even when the first one
      is released: the range checks come first. */
  lemma AreEqualResultsChecksRangesFirst()
    ensures AreEqualResults(State([], [RELEASED, 1]), 0, 100) == Violated(IdOutOfRange(100, 2))
  {
  }

  function ReleaseResult(s: State, r: Handle): (t: Checked<State>)
    ensures t.Ok? <==> Live(s.results, r)
    ensures t.Ok? ==> t.value.qubits == s.qubits && !Live(t.value.results, r)
    ensures t.Ok? ==> Release(s.results, r) == Ok(t.value.results)
    ensures t.Ok? && Valid(s) ==> Valid(t.value)
  {
    match Release(s.results, r)
    case Violated(v) => Violated(v)
    case Ok(results) => Ok(s.(results := results))
  }

  /** Releasing a result twice is reported as a violation. */
  lemma ReleaseResultTwiceViolates(s: State, r: Handle)
    requires Live(s.results, r)
    ensures ReleaseResult(s, r).Ok?
    ensures ReleaseResult(ReleaseResult(s, r).value, r) == Violated(SlotReleased(ToInt32(r)))
  {
    ReleaseTwiceViolates(s.results, r);
  }

  /** A measurement agrees with the canonical result of the qubit's bit:
      measuring a qubit in state 1 compares equal to UseOne() and unequal
      to UseZero(), and symmetrically for state 0. This needs the
      canonical slots to be unreleased, which the backend does not enforce,
      and fewer than 2^31 results, beyond which the `int` cast in
      GetResultId no longer recovers the new index. */
  lemma MeasurementMatchesCanonical(s: State, q: Handle)
    requires Valid(s) && Live(s.qubits, q) && |s.results| < TWO_31
    requires s.results[0] != RELEASED && s.results[1] != RELEASED
    ensures M(s, q).Ok?
    ensures AreEqualResults(M(s, q).value.0, M(s, q).value.1, UseOne()) == Ok(s.qubits[ToInt32(q)] == 1)
    ensures AreEqualResults(M(s, q).value.0, M(s, q).value.1, UseZero()) == Ok(s.qubits[ToInt32(q)] == 0)
  {
    var (t, m) := M(s, q).value;
    assert ToInt32(m) == m;
    assert t.results[m] == s.qubits[ToInt32(q)];
  }

  /** UseZero() and UseOne() differ while both are live. */
  lemma CanonicalResultsDiffer(s: State)
    requires Valid(s) && s.results[0] != RELEASED && s.results[1] != RELEASED
    ensures AreEqualResults(s, UseZero(), UseOne()) == Ok(false)
    ensures AreEqualResults(s, UseZero(), UseZero()) == Ok(true)
    ensures AreEqualResults(s, UseOne(), UseOne()) == Ok(true)
  {
  }

  /** The code lets a canonical result be released like any other; after
      that, comparing against it is a violation. */
  lemma CanonicalResultCanBeReleased(s: State)
    requires Valid(s) && s.results[1] != RELEASED
    ensures ReleaseResult(s, UseOne()).Ok?
    ensures AreEqualResults(ReleaseResult(s, UseOne()).value, UseOne(), UseOne()).Violated?
  {
  }

  // ---------------------------------------------------------------------
  // Whole runs

  /** One driver call of a program run against this backend. */
  datatype Op =
    | AllocateQubitOp
    | ReleaseQubitOp(q: Handle)
    | XOp(q: Handle)
    | MOp(q: Handle)
    | AreEqualResultsOp(r1: Handle, r2: Handle)
    | ReleaseResultOp(r: Handle)

  function Step(s: State, op: Op): Checked<State> {
    match op
    case AllocateQubitOp => Ok(AllocateQubit(s).0)
    case ReleaseQubitOp(q) => ReleaseQubit(s, q)
    case XOp(q) => X(s, q)
    case MOp(q) => (match M(s, q) case Ok(p) => Ok(p.0) case Violated(v) => Violated(v))
    case AreEqualResultsOp(r1, r2) => (match AreEqualResults(s, r1, r2) case Ok(_) => Ok(s) case Violated(v) => Violated(v))
    case ReleaseResultOp(r) => ReleaseResult(s, r)
  }

  /** Runs the calls in order and stops at the first violation. */
  function Run(s: State, ops: seq<Op>): Checked<State>
    decreases |ops|
  {
    if |ops| == 0 then Ok(s)
    else match Step(s, ops[0])
      case Violated(v) => Violated(v)
      case Ok(t) => Run(t, ops[1..])
  }

  /** 1 when slot `id` exists and is released, else 0. */
  function ReleasedAt(s: State, id: nat): nat {
    if id < |s.qubits| && s.qubits[id] == RELEASED then 1 else 0
  }

  /** How many calls in `ops` release a handle that names slot `id`. */
  function ReleaseCount(ops: seq<Op>, id: nat): nat
    decreases |ops|
  {
    if |ops| == 0 then 0
    else (if ops[0].ReleaseQubitOp? && ToInt32(ops[0].q) == id then 1 else 0) + ReleaseCount(ops[1..], id)
  }

  lemma StepKeepsValid(s: State, op: Op)
    requires Valid(s) && Step(s, op).Ok?
    ensures Valid(Step(s, op).value)
  {
  }

  /** Every state a run reaches from a valid state is valid. */
  lemma {:induction false} RunKeepsValid(s: State, ops: seq<Op>)
    requires Valid(s) && Run(s, ops).Ok?
    ensures Valid(Run(s, ops).value)
    decreases |ops|
  {
    if |ops| > 0 {
      StepKeepsValid(s, ops[0]);
      RunKeepsValid(Step(s, ops[0]).value, ops[1..]);
    }
  }

  /** One call changes the released-ness of slot `id` exactly when it is
      a release of that slot, and then from live to released. */
  lemma StepReleaseAccounting(s: State, op: Op, id: nat)
    requires Valid(s) && Step(s, op).Ok?
    ensures ReleasedAt(Step(s, op).value, id)
         == ReleasedAt(s, id) + (if op.ReleaseQubitOp? && ToInt32(op.q) == id then 1 else 0)
  {
    var t := Step(s, op).value;
    match op
    case AllocateQubitOp =>
      if id < |s.qubits| {
        assert t.qubits[id] == s.qubits[id];
      }
    case ReleaseQubitOp(q) =>
      if id < |s.qubits| && id != ToInt32(q) {
        assert t.qubits[id] == s.qubits[id];
      }
    case XOp(q) =>
      if id < |s.qubits| && id != ToInt32(q) {
        assert t.qubits[id] == s.qubits[id];
      }
    case MOp(_) =>
    case AreEqualResultsOp(_, _) =>
    case ReleaseResultOp(_) =>
  }

  /** Over a violation-free run, the release marker of every slot counts
      the releases of that slot: a slot is released at most once, and a
      released slot never comes back to life. */
  lemma {:induction false} RunReleaseAccounting(s: State, ops: seq<Op>, id: nat)
    requires Valid(s) && Run(s, ops).Ok?
    ensures ReleasedAt(Run(s, ops).value, id) == ReleasedAt(s, id) + ReleaseCount(ops, id)
    decreases |ops|
  {
    if |ops| > 0 {
      var t := Step(s, ops[0]).value;
      StepReleaseAccounting(s, ops[0], id);
      StepKeepsValid(s, ops[0]);
      RunReleaseAccounting(t, ops[1..], id);
    }
  }

  /** From a fresh backend, every violation-free run releases each qubit
      slot at most once, and a slot ends RELEASED exactly when it was
      released once; so when every slot ends RELEASED, as the validator's
      closing check demands, each qubit was released exactly once. */
  lemma FreshRunReleasesEachQubitOnce(ops: seq<Op>)
    requires Run(Init(), ops).Ok?
    ensures forall id: nat :: ReleaseCount(ops, id) == ReleasedAt(Run(Init(), ops).value, id)
    ensures forall id: nat :: ReleaseCount(ops, id) <= 1
    ensures var t := Run(Init(), ops).value;
      (forall i :: 0 <= i < |t.qubits| ==> t.qubits[i] == RELEASED) ==>
      (forall i: nat :: i < |t.qubits| ==> ReleaseCount(ops, i) == 1)
  {
    forall id: nat
      ensures ReleaseCount(ops, id) == ReleasedAt(Run(Init(), ops).value, id)
    {
      RunReleaseAccounting(Init(), ops, id);
    }
  }
}
