/** Every request to the open-systems adapter that can change its state
    or raise, as one request type (the pure queries QubitToString,
    GetResultValue, UseZero, UseOne and AreEqualResults stay in
    OpenSystems), and what any sequence of requests does:
    the ids it hands out, the native calls it makes, and where it stops
    with an unsupported-operation error. */
module OpenSystemsDispatch {
  import opened MachineInts
  import opened Pauli
  import OS = OpenSystems

  /** One call a running program makes on the adapter. */
  datatype Request =
    | AllocateQubit
    | ReleaseQubit(q: Handle)
    | M(q: Handle)
    | Measure(bases: seq<PauliId>, targets: seq<Handle>)
    | ReleaseResult(r: Handle)
    | Apply(gate: OS.Gate, q: Handle)
    | Controlled(gate: OS.Gate, controls: seq<Handle>, target: Handle)
    | R(axis: PauliId, target: Handle, theta: real)
    | ControlledR(controls: seq<Handle>, axis: PauliId, target: Handle, theta: real)
    | Exp(paulis: seq<PauliId>, targets: seq<Handle>, theta: real)
    | ControlledExp(controls: seq<Handle>, paulis: seq<PauliId>, targets: seq<Handle>, theta: real)
    | GetState
    | Assert(bases: seq<PauliId>, targets: seq<Handle>, result: Handle, message: string)
    | AssertProbability(bases: seq<PauliId>, targets: seq<Handle>, probabilityOfZero: real, precision: real, message: string)

  datatype Reply = NoReply | QubitReply(qubit: Handle) | ResultReply(result: Handle)

  /** The requests the native engine has an entry point for, directly or
      as pure bookkeeping in the adapter. */
  predicate EngineBacked(req: Request) {
    req.AllocateQubit? || req.ReleaseQubit? || req.M? || req.ReleaseResult? || req.Apply?
  }

  /** The diagnostics that inspect state, which the engine cannot do. */
  predicate IsDiagnostic(req: Request) {
    req.GetState? || req.Assert? || req.AssertProbability?
  }

  /** A native call the adapter forwards on behalf of a program: a gate or
      a measurement on the given instance. */
  predicate Forwarded(call: OS.NativeCall, simulatorId: Word32) {
    (call.ApplyGate? || call.MeasureCall?) && call.simulatorId == simulatorId
  }

  function Step(a: OS.Adapter, req: Request, engine: OS.Engine): (r: OS.Outcome<(OS.Adapter, Reply)>)
    ensures r.Unsupported? <==> !EngineBacked(req)
    ensures r.Unsupported? ==> r.reason == (if IsDiagnostic(req) then OS.NOT_SUPPORTED else OS.NOT_IMPLEMENTED)
    ensures r.Ok? ==> r.value.0.simulatorId == a.simulatorId
    ensures r.Ok? ==> |a.calls| <= |r.value.0.calls| <= |a.calls| + 1 && r.value.0.calls[..|a.calls|] == a.calls
    ensures r.Ok? ==> forall i :: |a.calls| <= i < |r.value.0.calls| ==> Forwarded(r.value.0.calls[i], a.simulatorId)
    ensures r.Ok? && (req.Apply? || req.M?) ==> |r.value.0.calls| == |a.calls| + 1
    ensures r.Ok? && req.AllocateQubit? ==> r.value.1 == QubitReply(a.nextQubitId)
    ensures r.Ok? && req.AllocateQubit? ==> r.value.0.nextQubitId == Low32(a.nextQubitId + 1)
    ensures r.Ok? && !req.AllocateQubit? ==> r.value.0.nextQubitId == a.nextQubitId && !r.value.1.QubitReply?
  {
    match req
    case AllocateQubit =>
      var (b, q) := OS.AllocateQubit(a);
      OS.Ok((b, QubitReply(q)))
    case ReleaseQubit(q) => OS.Ok((OS.ReleaseQubit(a, q), NoReply))
    case M(q) =>
      var (b, res) := OS.M(a, q, engine);
      OS.Ok((b, ResultReply(res)))
    case ReleaseResult(res) => OS.Ok((OS.ReleaseResult(a, res), NoReply))
    case Apply(g, q) => OS.Ok((OS.Apply(a, g, q), NoReply))
    case Measure(_, _) => OS.Unsupported(OS.NOT_IMPLEMENTED)
    case Controlled(_, _, _) => OS.Unsupported(OS.NOT_IMPLEMENTED)
    case R(_, _, _) => OS.Unsupported(OS.NOT_IMPLEMENTED)
    case ControlledR(_, _, _, _) => OS.Unsupported(OS.NOT_IMPLEMENTED)
    case Exp(_, _, _) => OS.Unsupported(OS.NOT_IMPLEMENTED)
    case ControlledExp(_, _, _, _) => OS.Unsupported(OS.NOT_IMPLEMENTED)
    case GetState => OS.Unsupported(OS.NOT_SUPPORTED)
    case Assert(_, _, _, _) => OS.Unsupported(OS.NOT_SUPPORTED)
    case AssertProbability(_, _, _, _, _) => OS.Unsupported(OS.NOT_SUPPORTED)
  }

  /** How a run ended: every request served, or stopped by the first
      unsupported one. */
  datatype Stop = Completed | Raised(reason: string)

  datatype RunResult = RunResult(adapter: OS.Adapter, replies: seq<Reply>, stop: Stop)

  /** Serves the requests in order; the first unsupported one ends the run
      with its error, the adapter as it was before that request. */
  function Run(a: OS.Adapter, reqs: seq<Request>, engine: OS.Engine): (r: RunResult)
    ensures |r.replies| <= |reqs|
    ensures r.stop.Completed? ==> |r.replies| == |reqs|
    decreases |reqs|
  {
    if |reqs| == 0 then RunResult(a, [], Completed)
    else match Step(a, reqs[0], engine)
      case Unsupported(reason) => RunResult(a, [], Raised(reason))
      case Ok((b, reply)) =>
        var rest := Run(b, reqs[1..], engine);
        RunResult(rest.adapter, [reply] + rest.replies, rest.stop)
  }

  /** The qubit ids handed out, in order. */
  function QubitIds(replies: seq<Reply>): seq<int>
    decreases |replies|
  {
    if |replies| == 0 then []
    else (if replies[0].QubitReply? then [replies[0].qubit] else []) + QubitIds(replies[1..])
  }

  /** lo, lo + 1, ..., lo + n - 1. */
  function Range(lo: int, n: nat): (s: seq<int>)
    ensures |s| == n && forall i :: 0 <= i < n ==> s[i] == lo + i
  {
    seq(n, i requires 0 <= i < n => lo + i)
  }

  /** While the counter does not wrap, the ids a run hands out are the
      consecutive counter values from where it started, whatever other
      requests (releases included) come between the allocations, and the
      counter ends just past the last of them. */
  lemma {:induction false} RunAllocatesConsecutiveIds(a: OS.Adapter, reqs: seq<Request>, engine: OS.Engine)
    requires a.nextQubitId + |reqs| < TWO_32
    ensures var r := Run(a, reqs, engine);
      && QubitIds(r.replies) == Range(a.nextQubitId, |QubitIds(r.replies)|)
      && r.adapter.nextQubitId == a.nextQubitId + |QubitIds(r.replies)|
    decreases |reqs|
  {
    if |reqs| > 0 {
      var step := Step(a, reqs[0], engine);
      if step.Ok? {
        var (b, reply) := step.value;
        var rest := Run(b, reqs[1..], engine);
        RunAllocatesConsecutiveIds(b, reqs[1..], engine);
        var replies := [reply] + rest.replies;
        assert replies[1..] == rest.replies;
        var tail := QubitIds(rest.replies);
        if reply.QubitReply? {
          assert b.nextQubitId == a.nextQubitId + 1;
          assert QubitIds(replies) == [a.nextQubitId as int] + tail;
          assert QubitIds(replies) == Range(a.nextQubitId, |tail| + 1);
        } else {
          assert QubitIds(replies) == tail;
        }
      }
    }
  }

  /** On a fresh adapter, fewer than 2^32 requests hand out the ids
      0, 1, 2, ... in order: contiguous, strictly increasing, and never
      reused. */
  lemma FreshAdapterIdsAreContiguous(engineId: nat, reqs: seq<Request>, engine: OS.Engine)
    requires |reqs| < TWO_32
    ensures var ids := QubitIds(Run(OS.Create(engineId), reqs, engine).replies);
      && (forall i :: 0 <= i < |ids| ==> ids[i] == i)
      && (forall i, j :: 0 <= i < j < |ids| ==> ids[i] < ids[j])
  {
    RunAllocatesConsecutiveIds(OS.Create(engineId), reqs, engine);
  }

  /** The counter is `unsigned`: after 2^32 allocations it wraps and hands
      out id 0 again. */
  lemma CounterWrapsAt2To32(a: OS.Adapter)
    requires a.nextQubitId == TWO_32 - 1
    ensures OS.AllocateQubit(a).1 == TWO_32 - 1
    ensures OS.AllocateQubit(OS.AllocateQubit(a).0).1 == 0
  {
  }

  /** Every native call a run adds is a gate or a measurement on the
      adapter's own instance, and the instance id never changes. */
  lemma {:induction false} RunForwardsToOwnInstance(a: OS.Adapter, reqs: seq<Request>, engine: OS.Engine)
    ensures var b := Run(a, reqs, engine).adapter;
      && b.simulatorId == a.simulatorId
      && |a.calls| <= |b.calls| && b.calls[..|a.calls|] == a.calls
      && forall i :: |a.calls| <= i < |b.calls| ==> Forwarded(b.calls[i], a.simulatorId)
    decreases |reqs|
  {
    if |reqs| > 0 {
      var step := Step(a, reqs[0], engine);
      if step.Ok? {
        var b := step.value.0;
        RunForwardsToOwnInstance(b, reqs[1..], engine);
        var c := Run(b, reqs[1..], engine).adapter;
        assert c == Run(a, reqs, engine).adapter;
        assert c.calls[..|a.calls|] == b.calls[..|b.calls|][..|a.calls|];
        forall i | |a.calls| <= i < |c.calls|
          ensures Forwarded(c.calls[i], a.simulatorId)
        {
          if i < |b.calls| {
            assert c.calls[i] == c.calls[..|b.calls|][i];
          }
        }
      }
    }
  }

  /** The native log of one adapter's life: construction, then the requests
      (up to the first unsupported one), then destruction. */
  function Session(engineId: nat, reqs: seq<Request>, engine: OS.Engine): seq<OS.NativeCall> {
    OS.Teardown(Run(OS.Create(engineId), reqs, engine).adapter).calls
  }

  /** The adapter creates its engine instance once, first, and destroys
      that same instance once, last; every call in between is forwarded
      to that instance. */
  lemma SessionOwnsOneInstance(engineId: nat, reqs: seq<Request>, engine: OS.Engine)
    ensures var log := Session(engineId, reqs, engine);
      && |log| >= 2
      && log[0] == OS.Init(OS.INITIAL_CAPACITY)
      && log[|log| - 1] == OS.Destroy(Low32(engineId))
      && forall i :: 0 < i < |log| - 1 ==> Forwarded(log[i], Low32(engineId))
  {
    var a := OS.Create(engineId);
    RunForwardsToOwnInstance(a, reqs, engine);
    var b := Run(a, reqs, engine).adapter;
    assert b.calls[..1] == a.calls;
    assert b.calls[0] == b.calls[..1][0];
  }
}
