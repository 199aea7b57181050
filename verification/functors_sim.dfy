/** FunctorsTestSimulator: a classical-bit backend with X, n-controlled X
    and M, where a result handle is the measured bit itself. Its qubit
    vector follows the same allocate / release / X rules as the lifecycle
    validator's (QubitSlots). Results are never allocated, so releasing
    one does nothing. */
module FunctorsSim {
  import opened MachineInts
  import opened QubitSlots

  /** The canonical Zero is the bit 0 itself, so it differs from One. */
  function UseZero(): (r: Handle)
    ensures r == 0 && !AreEqualResults(r, 1)
  {
    0
  }

  /** The canonical One is the bit 1 itself, so it differs from Zero. */
  function UseOne(): (r: Handle)
    ensures r == 1 && !AreEqualResults(r, UseZero())
  {
    1
  }

  /** Result handles are compared as pointers. */
  function AreEqualResults(r1: Handle, r2: Handle): (b: bool)
    ensures b <==> r1 == r2
  {
    r1 == r2
  }

  /** The qubit's bit is the result handle. */
  function M(qubits: seq<int>, q: Handle): (r: Checked<Handle>)
    ensures r.Ok? <==> Live(qubits, q)
    ensures r.Ok? ==> r.value == qubits[ToInt32(q)]
  {
    match LiveSlotId(qubits, q)
    case Violated(v) => Violated(v)
    case Ok(id) => Ok(qubits[id])
  }

  /** Controls are examined in order. Each must be live; the first one
      holding 0 ends the call with nothing changed (later controls are not
      examined). When no control holds 0, the call is X on the target. */
  function ControlledX(qubits: seq<int>, controls: seq<Handle>, target: Handle): (r: Checked<seq<int>>)
    ensures r.Ok? ==> |r.value| == |qubits|
    ensures r.Ok? && WellFormed(qubits) ==> WellFormed(r.value)
    decreases |controls|
  {
    if |controls| == 0 then Flip(qubits, target)
    else match LiveSlotId(qubits, controls[0])
      case Violated(v) => Violated(v)
      case Ok(id) =>
        if qubits[id] == 0 then Ok(qubits)
        else ControlledX(qubits, controls[1..], target)
  }

  /** The control condition: every control is live and holds 1. */
  predicate AllControlsOne(qubits: seq<int>, controls: seq<Handle>) {
    forall i :: 0 <= i < |controls| ==> Live(qubits, controls[i]) && qubits[ToInt32(controls[i])] == 1
  }

  /** Reference semantics when every control is live: flip the target if
      all controls hold 1, otherwise leave the qubits alone. */
  function ControlledXReference(qubits: seq<int>, controls: seq<Handle>, target: Handle): Checked<seq<int>> {
    if AllControlsOne(qubits, controls) then Flip(qubits, target) else Ok(qubits)
  }

  /** With all controls live on a well-formed vector, ControlledX is the
      reference semantics: it equals X exactly when every control is 1
      (in particular with no controls), and is the identity otherwise. */
  lemma {:induction false} ControlledXMatchesReference(qubits: seq<int>, controls: seq<Handle>, target: Handle)
    requires WellFormed(qubits)
    requires forall i :: 0 <= i < |controls| ==> Live(qubits, controls[i])
    ensures ControlledX(qubits, controls, target) == ControlledXReference(qubits, controls, target)
    decreases |controls|
  {
    if |controls| > 0 {
      var id := ToInt32(controls[0]);
      if qubits[id] != 0 {
        ControlledXMatchesReference(qubits, controls[1..], target);
        if AllControlsOne(qubits, controls[1..]) {
          forall i | 0 <= i < |controls|
            ensures Live(qubits, controls[i]) && qubits[ToInt32(controls[i])] == 1
          {
            if i > 0 {
              assert controls[i] == controls[1..][i - 1];
            }
          }
        } else {
          var j :| 0 <= j < |controls[1..]| && !(Live(qubits, controls[1..][j]) && qubits[ToInt32(controls[1..][j])] == 1);
          assert controls[j + 1] == controls[1..][j];
        }
      }
    }
  }

  /** The early exit: once a live control holds 0, with every earlier
      control live and 1, the call succeeds without change whatever the
      later controls and the target are. */
  lemma {:induction false} ControlledXStopsAtFirstZero(qubits: seq<int>, controls: seq<Handle>, target: Handle, k: nat)
    requires k < |controls|
    requires AllControlsOne(qubits, controls[..k])
    requires Live(qubits, controls[k]) && qubits[ToInt32(controls[k])] == 0
    ensures ControlledX(qubits, controls, target) == Ok(qubits)
    decreases k
  {
    if k > 0 {
      assert controls[..k][0] == controls[0];
      assert controls[1..][..k - 1] == controls[..k][1..];
      assert controls[1..][k - 1] == controls[k];
      ControlledXStopsAtFirstZero(qubits, controls[1..], target, k - 1);
    }
  }

  /** Every control met before any control holding 0 must be live: a
      negative, out-of-range or released one is reported, with the
      violation GetQubitId and the liveness REQUIRE give for it. */
  lemma {:induction false} ControlledXRejectsDeadControl(qubits: seq<int>, controls: seq<Handle>, target: Handle, k: nat)
    requires k < |controls|
    requires AllControlsOne(qubits, controls[..k])
    requires !Live(qubits, controls[k])
    ensures ControlledX(qubits, controls, target) == Violated(LiveSlotId(qubits, controls[k]).violation)
    decreases k
  {
    if k > 0 {
      assert controls[..k][0] == controls[0];
      assert controls[1..][..k - 1] == controls[..k][1..];
      assert controls[1..][k - 1] == controls[k];
      ControlledXRejectsDeadControl(qubits, controls[1..], target, k - 1);
    }
  }

  /** The released case: a released control met before any control
      holding 0 is reported as released. */
  lemma ControlledXRejectsReleasedControl(qubits: seq<int>, controls: seq<Handle>, target: Handle, k: nat)
    requires k < |controls|
    requires AllControlsOne(qubits, controls[..k])
    requires InRange(qubits, controls[k]) && qubits[ToInt32(controls[k])] == RELEASED
    ensures ControlledX(qubits, controls, target) == Violated(SlotReleased(ToInt32(controls[k])))
  {
    ControlledXRejectsDeadControl(qubits, controls, target, k);
  }

  /** M compares equal to UseOne() exactly when the qubit holds 1, and to
      UseZero() exactly when it holds 0. */
  lemma MeasurementMatchesCanonical(qubits: seq<int>, q: Handle)
    requires WellFormed(qubits) && Live(qubits, q)
    ensures M(qubits, q).Ok?
    ensures AreEqualResults(M(qubits, q).value, UseOne()) <==> qubits[ToInt32(q)] == 1
    ensures AreEqualResults(M(qubits, q).value, UseZero()) <==> qubits[ToInt32(q)] == 0
  {
  }
}
